/**
 A parent relation on integer nodes, given as a finite map from a child to its
 parent. The inventory uses it for container ids, the backup document for entry
 positions.

 `Acyclic` is the existence of a rank that drops along every link. `Chain` is
 the walk from a node to its root on an acyclic relation; `WalkUp` is the same
 walk guarded by a set of visited nodes, which is total on any relation.
 */
module Forest {
  import opened Sequences

  type Links = map<int, int>

  ghost predicate Ranked(up: Links, rank: map<int, nat>) {
    forall k :: k in up ==> k in rank && up[k] in rank && rank[up[k]] < rank[k]
  }

  ghost predicate Acyclic(up: Links) {
    exists rank :: Ranked(up, rank)
  }

  ghost function Rank(up: Links): (rank: map<int, nat>)
    requires Acyclic(up)
    ensures Ranked(up, rank)
  {
    var rank :| Ranked(up, rank);
    rank
  }

  /** A bound on the distance of a node to its root. */
  ghost function Height(up: Links, k: int): nat
    requires Acyclic(up)
  {
    var rank := Rank(up);
    if k in rank then rank[k] else 0
  }

  /** The nodes from `k` up to its root, both included. */
  ghost function Chain(up: Links, k: int): (chain: seq<int>)
    requires Acyclic(up)
    ensures |chain| > 0 && chain[0] == k
    decreases Height(up, k)
  {
    [k] + if k in up then Chain(up, up[k]) else []
  }

  /** `b` is `a` or one of its ancestors. */
  ghost predicate Reaches(up: Links, a: int, b: int)
    requires Acyclic(up)
  {
    b in Chain(up, a)
  }

  /** The part of the chain of `a` that lies below `b`. */
  ghost function Below(up: Links, a: int, b: int): seq<int>
    requires Acyclic(up)
    requires Reaches(up, a, b)
    decreases Height(up, a)
  {
    if a == b then [] else [a] + Below(up, up[a], b)
  }

  lemma {:induction false} ReachesHeight(up: Links, a: int, b: int)
    requires Acyclic(up)
    requires Reaches(up, a, b)
    ensures a == b || Height(up, b) < Height(up, a)
    decreases Height(up, a)
  {
    if a != b {
      ReachesHeight(up, up[a], b);
    }
  }

  lemma Regroup(xs: seq<int>, ys: seq<int>, zs: seq<int>)
    ensures xs + (ys + zs) == (xs + ys) + zs
  {
  }

  lemma {:induction false} ChainSplits(up: Links, a: int, b: int)
    requires Acyclic(up)
    requires Reaches(up, a, b)
    ensures Chain(up, a) == Below(up, a, b) + Chain(up, b)
    decreases Height(up, a)
  {
    if a != b {
      ChainSplits(up, up[a], b);
      Regroup([a], Below(up, up[a], b), Chain(up, b));
    }
  }

  lemma ReachesTransitive(up: Links, a: int, b: int, c: int)
    requires Acyclic(up)
    requires Reaches(up, a, b) && Reaches(up, b, c)
    ensures Reaches(up, a, c)
  {
    ChainSplits(up, a, b);
  }

  lemma {:induction false} ChainDistinct(up: Links, k: int)
    requires Acyclic(up)
    ensures Distinct(Chain(up, k))
    decreases Height(up, k)
  {
    if k in up {
      ChainDistinct(up, up[k]);
      if Reaches(up, up[k], k) {
        ReachesHeight(up, up[k], k);
      }
    }
  }

  /** A set that contains the parents of its members contains their chains. */
  lemma {:induction false} ChainStaysInside(up: Links, inside: set<int>, k: int)
    requires Acyclic(up)
    requires k in inside
    requires forall x :: x in inside && x in up ==> up[x] in inside
    ensures forall x :: x in Chain(up, k) ==> x in inside
    decreases Height(up, k)
  {
    if k in up {
      ChainStaysInside(up, inside, up[k]);
    }
  }

  // ---- Changing one link -------------------------------------------------

  /** The two relations give every node but `k` the same parent. */
  ghost predicate AgreeExcept(up: Links, next: Links, k: int) {
    forall x :: x != k ==> (x in up <==> x in next) && (x in up ==> up[x] == next[x])
  }

  lemma {:induction false} ChainElsewhere(up: Links, next: Links, k: int, x: int)
    requires Acyclic(up) && Acyclic(next) && AgreeExcept(up, next, k)
    requires !Reaches(up, x, k)
    ensures Chain(next, x) == Chain(up, x)
    decreases Height(up, x)
  {
    if x in up {
      ChainElsewhere(up, next, k, up[x]);
    }
  }

  lemma {:induction false} ChainThrough(up: Links, next: Links, k: int, x: int)
    requires Acyclic(up) && Acyclic(next) && AgreeExcept(up, next, k)
    requires Reaches(up, x, k)
    ensures Chain(next, x) == Below(up, x, k) + Chain(next, k)
    decreases Height(up, x)
  {
    if x != k {
      ChainThrough(up, next, k, up[x]);
      Regroup([x], Below(up, up[x], k), Chain(next, k));
    } else {
      assert Below(up, x, k) == [];
    }
  }

  /** Re-hanging `k` changes nobody's membership in the subtree of `k`. */
  lemma SubtreeUnchanged(up: Links, next: Links, k: int, x: int)
    requires Acyclic(up) && Acyclic(next) && AgreeExcept(up, next, k)
    ensures Reaches(up, x, k) <==> Reaches(next, x, k)
  {
    if Reaches(up, x, k) {
      ChainThrough(up, next, k, x);
    } else {
      ChainElsewhere(up, next, k, x);
    }
  }

  lemma DetachAcyclic(up: Links, k: int)
    requires Acyclic(up)
    ensures Acyclic(up - {k})
  {
    assert Ranked(up - {k}, Rank(up));
  }

  /** A bound on the distance to the root once `k` hangs under `parent`. */
  ghost function Lifted(up: Links, k: int, parent: int, x: int): nat
    requires Acyclic(up)
  {
    Height(up, x) + if Reaches(up, x, k) then Height(up, parent) + 1 else 0
  }

  lemma LiftedDrops(up: Links, k: int, parent: int, x: int)
    requires Acyclic(up) && !Reaches(up, parent, k) && x in up[k := parent]
    ensures Lifted(up, k, parent, up[k := parent][x]) < Lifted(up, k, parent, x)
  {
    hide Acyclic;
    if x != k {
      assert Reaches(up, x, k) <==> Reaches(up, up[x], k);
    }
  }

  lemma AttachAcyclic(up: Links, k: int, parent: int)
    requires Acyclic(up)
    requires !Reaches(up, parent, k)
    ensures Acyclic(up[k := parent])
  {
    hide Lifted, Reaches;
    var next := up[k := parent];
    var rank := map x | x in up.Keys + up.Values + {k, parent} :: Lifted(up, k, parent, x);
    forall x | x in next
      ensures x in rank && next[x] in rank && rank[next[x]] < rank[x]
    {
      LiftedDrops(up, k, parent, x);
      assert x != k ==> up[x] in up.Values;
    }
    assert Ranked(next, rank);
  }

  lemma {:induction false} RankAlong(up: Links, next: Links, rank: map<int, nat>, k: int, x: int)
    requires Acyclic(up) && AgreeExcept(up, next, k) && Ranked(next, rank)
    requires Reaches(up, x, k)
    requires x in rank
    ensures k in rank && rank[k] <= rank[x]
    decreases Height(up, x)
  {
    if x != k {
      RankAlong(up, next, rank, k, up[x]);
    }
  }

  /**
   The guard of every re-parenting: hanging `k` under `parent` keeps the forest
   exactly when the upward walk from `parent` does not meet `k`.
   */
  lemma AttachAcyclicIff(up: Links, k: int, parent: int)
    requires Acyclic(up)
    ensures Acyclic(up[k := parent]) <==> !Reaches(up, parent, k)
  {
    if Reaches(up, parent, k) {
      var next := up[k := parent];
      if Acyclic(next) {
        var rank := Rank(next);
        assert k in next && next[k] == parent;
        RankAlong(up, next, rank, k, parent);
      }
    } else {
      AttachAcyclic(up, k, parent);
    }
  }

  // ---- The guarded walk ----------------------------------------------------

  /** The walk up from `k` that stops before a node it has already seen. */
  function WalkUp(up: Links, k: int, seen: set<int>): (walk: seq<int>)
    decreases |up.Keys - seen|
  {
    if k in seen then []
    else if k in up then
      assert up.Keys - (seen + {k}) < up.Keys - seen by { assert k in up.Keys - seen; }
      SubsetSmaller(up.Keys - (seen + {k}), up.Keys - seen);
      [k] + WalkUp(up, up[k], seen + {k})
    else [k]
  }

  lemma SubsetSmaller(a: set<int>, b: set<int>)
    requires a < b
    ensures |a| < |b|
  {
    assert b == a + (b - a);
  }

  lemma {:induction false} WalkUpFresh(up: Links, k: int, seen: set<int>)
    ensures Distinct(WalkUp(up, k, seen))
    ensures forall x :: x in WalkUp(up, k, seen) ==> x !in seen
    decreases |up.Keys - seen|
  {
    if k !in seen && k in up {
      SubsetSmaller(up.Keys - (seen + {k}), up.Keys - seen);
      WalkUpFresh(up, up[k], seen + {k});
    }
  }

  lemma {:induction false} WalkUpFollowsChain(up: Links, k: int, seen: set<int>)
    requires Acyclic(up)
    requires forall x :: x in seen ==> x !in Chain(up, k)
    ensures WalkUp(up, k, seen) == Chain(up, k)
    decreases Height(up, k)
  {
    if k in up {
      if Reaches(up, up[k], k) {
        ReachesHeight(up, up[k], k);
      }
      WalkUpFollowsChain(up, up[k], seen + {k});
    }
  }

  /** On a forest the guard never fires: the guarded walk is the chain. */
  lemma WalkUpIsChain(up: Links, k: int)
    requires Acyclic(up)
    ensures WalkUp(up, k, {}) == Chain(up, k)
  {
    WalkUpFollowsChain(up, k, {});
  }

  lemma {:induction false} WalkUpLinked(up: Links, k: int, seen: set<int>)
    ensures var walk := WalkUp(up, k, seen);
      && (k !in seen ==> |walk| > 0 && walk[0] == k)
      && (forall i :: 0 <= i < |walk| - 1 ==> walk[i] in up && up[walk[i]] == walk[i + 1])
      && (|walk| > 0 && walk[|walk| - 1] in up ==> up[walk[|walk| - 1]] in seen || up[walk[|walk| - 1]] in walk)
    decreases |up.Keys - seen|
  {
    if k !in seen && k in up {
      SubsetSmaller(up.Keys - (seen + {k}), up.Keys - seen);
      WalkUpLinked(up, up[k], seen + {k});
    }
  }

  /** The guard fires: the walk from `k` ends at a node that still has a parent. */
  predicate Loops(up: Links, k: int) {
    var walk := WalkUp(up, k, {});
    |walk| > 0 && walk[|walk| - 1] in up
  }

  lemma {:induction false} WalkUpAvoids(up: Links, y: int, seen: set<int>, k: int)
    requires k !in WalkUp(up, y, seen)
    ensures WalkUp(up, y, seen + {k}) == WalkUp(up, y, seen)
    decreases |up.Keys - seen|
  {
    if y !in seen && y in up {
      SubsetSmaller(up.Keys - (seen + {y}), up.Keys - seen);
      WalkUpAvoids(up, up[y], seen + {y}, k);
      assert (seen + {k}) + {y} == (seen + {y}) + {k};
    }
  }

  lemma {:induction false} WalkUpStopsBefore(up: Links, y: int, seen: set<int>, k: int)
    requires k in WalkUp(up, y, seen) && y != k
    ensures var walk := WalkUp(up, y, seen + {k}); |walk| > 0 && walk[|walk| - 1] in up
    decreases |up.Keys - seen|
  {
    if y !in seen && y in up {
      SubsetSmaller(up.Keys - (seen + {y}), up.Keys - seen);
      assert (seen + {k}) + {y} == (seen + {y}) + {k};
      if up[y] != k {
        WalkUpStopsBefore(up, up[y], seen + {y}, k);
      }
    }
  }

  lemma LoopFreeRanked(up: Links)
    requires forall k :: k in up ==> !Loops(up, k)
    ensures Acyclic(up)
  {
    var rank := map k | k in up.Keys + up.Values :: |WalkUp(up, k, {})|;
    forall k | k in up
      ensures up[k] in rank && rank[up[k]] < rank[k]
    {
      assert up[k] in up.Values;
      assert WalkUp(up, k, {}) == [k] + WalkUp(up, up[k], {} + {k});
      if k in WalkUp(up, up[k], {}) {
        if up[k] != k {
          WalkUpStopsBefore(up, up[k], {}, k);
        }
        assert Loops(up, k);
      } else {
        WalkUpAvoids(up, up[k], {}, k);
      }
    }
    assert Ranked(up, rank);
  }

  lemma {:induction false} ChainEnds(up: Links, k: int)
    requires Acyclic(up)
    ensures Chain(up, k)[|Chain(up, k)| - 1] !in up
    decreases Height(up, k)
  {
    if k in up {
      ChainEnds(up, up[k]);
    }
  }

  /** Scanning from every node decides whether the relation is a forest. */
  lemma AcyclicIffLoopFree(up: Links)
    ensures Acyclic(up) <==> forall k :: k in up ==> !Loops(up, k)
  {
    if Acyclic(up) {
      forall k | k in up ensures !Loops(up, k) {
        WalkUpIsChain(up, k);
        ChainEnds(up, k);
      }
    } else if forall k :: k in up ==> !Loops(up, k) {
      LoopFreeRanked(up);
    }
  }

  /** `n` parent steps lead from `a` to `b`. */
  predicate Climbs(up: Links, a: int, n: nat, b: int)
    decreases n
  {
    if n == 0 then a == b else a in up && Climbs(up, up[a], n - 1, b)
  }

  lemma {:induction false} ClimbDrops(up: Links, a: int, n: nat, b: int)
    requires Acyclic(up) && Climbs(up, a, n, b)
    ensures n == 0 || Height(up, b) < Height(up, a)
    decreases n
  {
    if n > 0 {
      ClimbDrops(up, up[a], n - 1, b);
    }
  }

  lemma {:induction false} WalkClimbs(up: Links, walk: seq<int>, i: int, j: int)
    requires 0 <= i <= j < |walk|
    requires forall n :: 0 <= n < |walk| - 1 ==> walk[n] in up && up[walk[n]] == walk[n + 1]
    ensures Climbs(up, walk[i], j - i, walk[j])
    decreases j - i
  {
    if i < j {
      WalkClimbs(up, walk, i + 1, j);
    }
  }

  lemma {:induction false} ClimbOneMore(up: Links, a: int, n: nat, b: int)
    requires Climbs(up, a, n, b) && b in up
    ensures Climbs(up, a, n + 1, up[b])
    decreases n
  {
    if n > 0 {
      ClimbOneMore(up, up[a], n - 1, b);
    }
  }

  /** Some node is its own proper ancestor. */
  ghost predicate HasCycle(up: Links) {
    exists k, n: nat :: n > 0 && Climbs(up, k, n, k)
  }

  /** A rank exists exactly when no node is its own proper ancestor. */
  lemma AcyclicIffNoCycle(up: Links)
    ensures Acyclic(up) <==> !HasCycle(up)
  {
    if Acyclic(up) {
      forall k, n: nat | n > 0 && Climbs(up, k, n, k) ensures false {
        ClimbDrops(up, k, n, k);
      }
    } else {
      AcyclicIffLoopFree(up);
      var k :| k in up && Loops(up, k);
      var walk := WalkUp(up, k, {});
      WalkUpLinked(up, k, {});
      var last := |walk| - 1;
      var i :| 0 <= i <= last && walk[i] == up[walk[last]];
      WalkClimbs(up, walk, i, last);
      ClimbOneMore(up, walk[i], last - i, walk[last]);
      var node, steps: nat := walk[i], last - i + 1;
      assert steps > 0 && Climbs(up, node, steps, node);
    }
  }
}
