/**
 The path helpers of the web interface, over the lists it has loaded: the chain of a
 container, and the worklist that collects its subtree before a move.
 */
module WebPaths {
  import opened Inventory
  import opened Forest
  import opened StoreModel
  import opened StoreInvariant
  import opened Store
  import opened Paths
  import opened LocationIndex
  import opened LocationAgrees

  /** Ancestors first, the container itself last; empty when it is not known. */
  method ContainerChain(byId: Containers, id: int) returns (chain: seq<Container>)
    requires RowsKeyed(byId)
    ensures chain == if id in byId then TopDown(ChainFrom(byId, byId[id], {})) else []
  {
    if id !in byId {
      return [];
    }
    hide ChainFrom, TopDown;
    var current := byId[id];
    var seen: set<int> := {};
    chain := [];
    ghost var met, left: seq<Container> := [], ChainFrom(byId, current, {});
    Reverse([], []);
    while current.id !in seen
      invariant current.id in byId && left == ChainFrom(byId, current, seen)
      invariant ChainFrom(byId, byId[id], {}) == met + left && chain == TopDown(met)
      invariant current.id in seen ==> left == []
      decreases |byId.Keys - seen|
    {
      assert byId.Keys - (seen + {current.id}) < byId.Keys - seen by { assert current.id in byId.Keys - seen; }
      SubsetSmaller(byId.Keys - (seen + {current.id}), byId.Keys - seen);
      ChainStarts(byId, current, seen);
      seen := seen + {current.id};
      left := Above(byId, current, seen);
      RegroupRows(met, current, left);
      ReverseLast(met, current);
      met := met + [current];
      chain := [current] + chain;
      if current.parent.None? || current.parent.value !in byId {
        assert left == [];
        break;
      }
      AboveIs(byId, current, seen);
      current := byId[current.parent.value];
    }
    assert met + [] == met;
  }

  lemma {:induction false} Reverse(a: seq<Container>, b: seq<Container>)
    ensures TopDown(a + b) == TopDown(b) + TopDown(a)
  {
    if a == [] {
      assert a + b == b;
    } else {
      assert (a + b)[1..] == a[1..] + b;
      Reverse(a[1..], b);
    }
  }

  lemma ReverseLast(met: seq<Container>, c: Container)
    ensures TopDown(met + [c]) == [c] + TopDown(met)
  {
    Reverse(met, [c]);
    assert [c][1..] == [];
  }

  function NamesIn(chain: seq<Container>): (names: seq<string>)
    ensures |names| == |chain| && forall i :: 0 <= i < |names| ==> names[i] == chain[i].name
  {
    seq(|chain|, i requires 0 <= i < |chain| => chain[i].name)
  }

  /** The chain as a path; a room that is not known is left out. */
  method ContainerPath(rooms: Rooms, byId: Containers, id: int) returns (path: string)
    requires RowsKeyed(byId)
    ensures id !in byId ==> path == ""
    ensures id in byId ==>
      var names := NamesIn(TopDown(ChainFrom(byId, byId[id], {})));
      path == PathText(if byId[id].roomId in rooms then [rooms[byId[id].roomId].name] + names else names)
  {
    var chain := ContainerChain(byId, id);
    var parts := NamesIn(chain);
    if id in byId && byId[id].roomId in rooms {
      return PathText([rooms[byId[id].roomId].name] + parts);
    }
    path := PathText(parts);
  }

  lemma {:induction false} NamesEitherWay(chain: seq<Container>)
    ensures NamesIn(TopDown(chain)) == NamesTop(chain)
  {
    if chain != [] {
      NamesEitherWay(chain[1..]);
    }
  }

  /** In a sound store the interface shows the path the server renders. */
  lemma WebPathAgrees(s: State, id: int)
    requires Sound(s) && id in s.containers
    ensures RowsKeyed(s.containers) && s.containers[id].roomId in s.rooms
    ensures PathText([s.rooms[s.containers[id].roomId].name] + NamesIn(TopDown(ChainFrom(s.containers, s.containers[id], {}))))
      == PathOfPlace(s.rooms, s.containers, InContainer(id))
  {
    SoundRows(s);
    NamesEitherWay(ChainFrom(s.containers, s.containers[id], {}));
  }

  // ---- The subtree --------------------------------------------------------------------------

  /** The listed children of every container that has some. */
  method ChildLists(rows: seq<Container>) returns (childrenOf: map<int, seq<Container>>)
    ensures forall p, c :: (p in childrenOf && c in childrenOf[p]) <==> (c in rows && c.parent == Some(p))
  {
    childrenOf := map[];
    for i := 0 to |rows|
      invariant forall p, c :: (p in childrenOf && c in childrenOf[p]) <==> (c in rows[..i] && c.parent == Some(p))
    {
      var c := rows[i];
      assert rows[..i + 1] == rows[..i] + [c];
      if c.parent.Some? {
        var parent := c.parent.value;
        if parent in childrenOf {
          childrenOf := childrenOf[parent := childrenOf[parent] + [c]];
        } else {
          childrenOf := childrenOf[parent := [c]];
        }
      }
    }
    assert rows[..|rows|] == rows;
  }

  /** Following parents through the listed rows leads from `x` to `id`. */
  ghost predicate Descends(rows: seq<Container>, x: int, id: int, steps: nat)
    decreases steps
  {
    || x == id
    || (steps > 0 && exists c :: c in rows && c.id == x && c.parent.Some? && Descends(rows, c.parent.value, id, steps - 1))
  }

  ghost predicate Descendant(rows: seq<Container>, x: int, id: int) {
    exists steps: nat :: Descends(rows, x, id, steps)
  }

  lemma ChildDescends(rows: seq<Container>, c: Container, id: int)
    requires c in rows && c.parent.Some? && Descendant(rows, c.parent.value, id)
    ensures Descendant(rows, c.id, id)
  {
    var steps: nat :| Descends(rows, c.parent.value, id, steps);
    assert Descends(rows, c.id, id, steps + 1);
  }

  lemma {:induction false} ClosedHasAll(rows: seq<Container>, ids: set<int>, id: int, x: int, steps: nat)
    requires id in ids && Descends(rows, x, id, steps)
    requires forall c :: c in rows && c.parent.Some? && c.parent.value in ids ==> c.id in ids
    ensures x in ids
    decreases steps
  {
    if x != id {
      var c :| c in rows && c.id == x && c.parent.Some? && Descends(rows, c.parent.value, id, steps - 1);
      ClosedHasAll(rows, ids, id, c.parent.value, steps - 1);
    }
  }

  function IdsIn(rows: seq<Container>): set<int> {
    set c | c in rows :: c.id
  }

  /** The container and every descendant, on lists that may dangle or go in circles. */
  method SubtreeIds(rows: seq<Container>, id: int) returns (ids: set<int>)
    ensures forall x :: x in ids <==> Descendant(rows, x, id)
  {
    hide Descendant;
    var childrenOf := ChildLists(rows);
    ghost var all := IdsIn(rows) + {id};
    ids := {};
    var stack := [id];
    SelfDescends(rows, id);
    while stack != []
      invariant id in ids || id in stack
      invariant ids <= all && forall x :: x in stack ==> x in all
      invariant forall x :: x in ids || x in stack ==> Descendant(rows, x, id)
      invariant forall c :: c in rows && c.parent.Some? && c.parent.value in ids ==> c.id in ids || c.id in stack
      decreases |all - ids|, |stack|
    {
      var current := stack[|stack| - 1];
      ghost var before := stack;
      stack := stack[..|stack| - 1];
      assert forall x :: x in before <==> x in stack || x == current;
      if current in ids {
        continue;
      }
      assert all - (ids + {current}) < all - ids by { assert current in all - ids; }
      SubsetSmaller(all - (ids + {current}), all - ids);
      ids := ids + {current};
      if current in childrenOf {
        stack := PushChildren(rows, childrenOf[current], stack, id, current);
      }
    }
    forall x ensures x in ids <==> Descendant(rows, x, id) {
      AllCollected(rows, ids, id, x);
    }
  }

  lemma SelfDescends(rows: seq<Container>, id: int)
    ensures Descendant(rows, id, id)
  {
    assert Descends(rows, id, id, 0);
  }

  lemma AllCollected(rows: seq<Container>, ids: set<int>, id: int, x: int)
    requires id in ids
    requires forall c :: c in rows && c.parent.Some? && c.parent.value in ids ==> c.id in ids
    ensures Descendant(rows, x, id) ==> x in ids
  {
    if Descendant(rows, x, id) {
      var steps: nat :| Descends(rows, x, id, steps);
      ClosedHasAll(rows, ids, id, x, steps);
    }
  }

  method PushChildren(rows: seq<Container>, children: seq<Container>, stack: seq<int>, ghost id: int, ghost parent: int)
    returns (pushed: seq<int>)
    requires forall c :: c in children ==> c in rows && c.parent == Some(parent)
    requires Descendant(rows, parent, id)
    ensures forall x :: x in pushed <==> x in stack || exists c :: c in children && c.id == x
    ensures forall c :: c in children ==> Descendant(rows, c.id, id) && c.id in IdsIn(rows)
  {
    hide Descendant;
    pushed := stack;
    for i := 0 to |children|
      invariant forall x :: x in pushed <==> x in stack || exists c :: c in children[..i] && c.id == x
    {
      assert children[..i + 1] == children[..i] + [children[i]];
      pushed := pushed + [children[i].id];
    }
    assert children[..|children|] == children;
    forall c | c in children ensures Descendant(rows, c.id, id) {
      ChildDescends(rows, c, id);
    }
  }

  lemma {:induction false} DescendsReaches(s: State, rows: seq<Container>, x: int, id: int, steps: nat)
    requires Sound(s) && Lists(rows, s.containers) && Descends(rows, x, id, steps)
    ensures IsForest(s.containers) && Reaches(ParentLinks(s.containers), x, id)
    decreases steps
  {
    hide RoomsSound, ItemsSound, Acyclic;
    if x != id {
      var c :| c in rows && c.id == x && c.parent.Some? && Descends(rows, c.parent.value, id, steps - 1);
      SoundRows(s);
      DescendsReaches(s, rows, c.parent.value, id, steps - 1);
    }
  }

  lemma {:induction false} ReachesDescends(s: State, rows: seq<Container>, x: int, id: int) returns (steps: nat)
    requires Sound(s) && Lists(rows, s.containers) && Reaches(ParentLinks(s.containers), x, id)
    ensures Descends(rows, x, id, steps)
    decreases Height(ParentLinks(s.containers), x)
  {
    hide RoomsSound, ItemsSound, Acyclic;
    steps := 0;
    if x != id {
      SoundRows(s);
      var parent := ParentLinks(s.containers)[x];
      steps := ReachesDescends(s, rows, parent, id);
      assert s.containers[x] in rows && s.containers[x].id == x;
      steps := steps + 1;
    }
  }

  /** In a sound store the worklist collects what the store's own walk collects. */
  lemma SubtreesAgree(s: State, rows: seq<Container>, id: int, x: int)
    requires Sound(s) && Lists(rows, s.containers)
    ensures Descendant(rows, x, id) <==> WalkMeets(s.containers, x, id)
  {
    hide Sound;
    SoundRows(s);
    SoundForest(s);
    MeetsIsReaches(s.containers, x, id);
    if Descendant(rows, x, id) {
      var steps: nat :| Descends(rows, x, id, steps);
      DescendsReaches(s, rows, x, id, steps);
    }
    if Reaches(ParentLinks(s.containers), x, id) {
      var steps := ReachesDescends(s, rows, x, id);
    }
  }
}
