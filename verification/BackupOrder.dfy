/** What the container order of a document promises. */
module BackupOrder {
  import opened Sequences
  import opened Text
  import opened Sorting
  import opened Forest
  import opened BackupDocument

  lemma LoopFreeIffAcyclic(entries: seq<DocContainer>)
    requires KeysDistinct(entries)
    ensures AnyLoop(entries) <==> !Acyclic(EntryLinks(entries))
  {
    var up := EntryLinks(entries);
    AcyclicIffLoopFree(up);
    if AnyLoop(entries) {
      var i :| 0 <= i < |entries| && Loops(up, i);
      assert i in up;
    } else {
      forall k | k in up ensures !Loops(up, k) {
        assert HangsFrom(entries, k, up[k]);
      }
    }
  }

  /**
   Ordering fails exactly when two entries share a key or the parent links go in
   a circle; so it answers on every list of entries.
   */
  lemma OrderedFailsIff(entries: seq<DocContainer>)
    ensures Ordered(entries).Err? <==> !KeysDistinct(entries) || HasCycle(EntryLinks(entries))
    ensures Ordered(entries).Err? ==> Ordered(entries).error.Validation?
  {
    if KeysDistinct(entries) {
      LoopFreeIffAcyclic(entries);
      AcyclicIffNoCycle(EntryLinks(entries));
    }
  }

  lemma KeysDistinctDistinct(entries: seq<DocContainer>)
    requires KeysDistinct(entries)
    ensures Distinct(entries)
  {
  }

  lemma {:induction false} EntriesOfInsert(x: Placed, ys: seq<Placed>)
    ensures multiset(EntriesOf(Insert(x, ys, PlacedOrder))) == multiset{x.entry} + multiset(EntriesOf(ys))
    decreases |ys|
  {
    if ys != [] && KeyLess(PlacedOrder(ys[0]), PlacedOrder(x)) {
      EntriesOfInsert(x, ys[1..]);
      var tail := Insert(x, ys[1..], PlacedOrder);
      assert EntriesOf([ys[0]] + tail) == [ys[0].entry] + EntriesOf(tail);
      assert EntriesOf(ys) == [ys[0].entry] + EntriesOf(ys[1..]);
    } else {
      assert EntriesOf([x] + ys) == [x.entry] + EntriesOf(ys);
    }
  }

  lemma {:induction false} EntriesOfSort(xs: seq<Placed>)
    ensures multiset(EntriesOf(StableSort(xs, PlacedOrder))) == multiset(EntriesOf(xs))
    decreases |xs|
  {
    if xs != [] {
      EntriesOfSort(xs[1..]);
      EntriesOfInsert(xs[0], StableSort(xs[1..], PlacedOrder));
      assert EntriesOf(xs) == [xs[0].entry] + EntriesOf(xs[1..]);
    }
  }

  /** A document order is a permutation of the entries. */
  lemma OrderedPermutes(entries: seq<DocContainer>)
    requires Ordered(entries).Ok?
    ensures multiset(Ordered(entries).value) == multiset(entries)
  {
    EntriesOfSort(Place(entries));
    assert EntriesOf(Place(entries)) == entries;
  }

  lemma ChildDeeper(entries: seq<DocContainer>, i: int, j: int)
    requires KeysDistinct(entries) && !AnyLoop(entries)
    requires HangsFrom(entries, i, j)
    ensures Depth(entries, i) == Depth(entries, j) + 1
  {
    var up := EntryLinks(entries);
    LoopFreeIffAcyclic(entries);
    WalkUpIsChain(up, i);
    WalkUpIsChain(up, j);
    assert Chain(up, i) == [i] + Chain(up, j);
  }

  lemma KeyLessByDepth(a: Placed, b: Placed)
    requires ScopeKey(a.entry.room) == ScopeKey(b.entry.room) && a.depth < b.depth
    ensures KeyLess(PlacedOrder(a), PlacedOrder(b))
  {
    var ka, kb := PlacedOrder(a), PlacedOrder(b);
    assert ka[0] == kb[0];
    assert ka[1..][0] == Number(a.depth) && kb[1..][0] == Number(b.depth);
    assert KeyLess(ka[1..], kb[1..]);
  }

  /** Every entry comes after the entry it hangs from. */
  ghost predicate ParentsFirst(ordered: seq<DocContainer>) {
    forall i, j :: HangsFrom(ordered, i, j) ==> j < i
  }

  lemma PlacedFind(entries: seq<DocContainer>, i: int) returns (a: int)
    requires Ordered(entries).Ok? && 0 <= i < |entries|
    ensures 0 <= a < |entries| && Place(entries)[a] == StableSort(Place(entries), PlacedOrder)[i]
  {
    var placed := Place(entries);
    var sorted := StableSort(placed, PlacedOrder);
    SortPermutes(placed, PlacedOrder);
    PermutedMembers(sorted, placed);
    assert sorted[i] in placed;
    a :| 0 <= a < |placed| && placed[a] == sorted[i];
  }

  lemma OrderedParentsFirst(entries: seq<DocContainer>)
    requires Ordered(entries).Ok?
    ensures ParentsFirst(Ordered(entries).value)
  {
    var placed := Place(entries);
    var sorted := StableSort(placed, PlacedOrder);
    var ordered := Ordered(entries).value;
    SortSorted(placed, PlacedOrder);
    SortPermutes(placed, PlacedOrder);
    PermutedMembers(sorted, placed);
    forall i, j | HangsFrom(ordered, i, j) ensures j < i {
      var a := PlacedFind(entries, i);
      var b := PlacedFind(entries, j);
      assert HangsFrom(entries, a, b);
      ChildDeeper(entries, a, b);
      KeyIrreflexive(PlacedOrder(sorted[i]));
      KeyLessByDepth(sorted[j], sorted[i]);
    }
  }

  // ---- The order of the input does not matter --------------------------------------

  lemma PermutedKeysDistinct(xs: seq<DocContainer>, ys: seq<DocContainer>)
    requires KeysDistinct(xs) && multiset(xs) == multiset(ys)
    ensures KeysDistinct(ys)
  {
    KeysDistinctDistinct(xs);
    PermutedDistinct(xs, ys);
    PermutedMembers(xs, ys);
    forall i, j | 0 <= i < |ys| && 0 <= j < |ys| && EntryKey(ys[i]) == EntryKey(ys[j]) ensures i == j {
      assert ys[i] in xs && ys[j] in xs;
      var a :| 0 <= a < |xs| && xs[a] == ys[i];
      var b :| 0 <= b < |xs| && xs[b] == ys[j];
    }
  }

  /** The same entries were met by both scans. */
  ghost predicate SameSeen(xs: seq<DocContainer>, ys: seq<DocContainer>, seen: set<int>, other: set<int>) {
    forall k, l :: 0 <= k < |xs| && 0 <= l < |ys| && xs[k] == ys[l] ==> (k in seen <==> l in other)
  }

  lemma OneMoreSeen(xs: seq<DocContainer>, ys: seq<DocContainer>, i: int, j: int, seen: set<int>, other: set<int>)
    requires KeysDistinct(xs) && KeysDistinct(ys) && 0 <= i < |xs| && 0 <= j < |ys| && xs[i] == ys[j]
    requires SameSeen(xs, ys, seen, other)
    ensures SameSeen(xs, ys, seen + {i}, other + {j})
  {
  }

  lemma SeenAlike(xs: seq<DocContainer>, ys: seq<DocContainer>, i: int, j: int, seen: set<int>, other: set<int>)
    requires 0 <= i < |xs| && 0 <= j < |ys| && xs[i] == ys[j] && SameSeen(xs, ys, seen, other)
    ensures i in seen <==> j in other
  {
  }

  /** A scan depends on the entries it meets, not on where they are listed. */
  lemma {:induction false} ScanForgetsOrder(xs: seq<DocContainer>, ys: seq<DocContainer>, i: int, j: int, seen: set<int>, other: set<int>)
    requires KeysDistinct(xs) && KeysDistinct(ys) && multiset(xs) == multiset(ys)
    requires 0 <= i < |xs| && 0 <= j < |ys| && xs[i] == ys[j]
    requires SameSeen(xs, ys, seen, other)
    ensures var a, b := WalkUp(EntryLinks(xs), i, seen), WalkUp(EntryLinks(ys), j, other);
      && |a| == |b|
      && (a != [] ==> (a[|a| - 1] in EntryLinks(xs) <==> b[|b| - 1] in EntryLinks(ys)))
    decreases |EntryLinks(xs).Keys - seen|
  {
    hide KeysDistinct, EntryLinks, EntryKey, ParentKey, SameSeen;
    var up, down := EntryLinks(xs), EntryLinks(ys);
    PermutedMembers(xs, ys);
    SameLink(xs, ys, i, j);
    SeenAlike(xs, ys, i, j, seen, other);
    if i !in seen && i in up {
      var p, q := up[i], down[j];
      SubsetSmaller(up.Keys - (seen + {i}), up.Keys - seen);
      OneMoreSeen(xs, ys, i, j, seen, other);
      ScanForgetsOrder(xs, ys, p, q, seen + {i}, other + {j});
      var a, b := WalkUp(up, p, seen + {i}), WalkUp(down, q, other + {j});
      assert WalkUp(up, i, seen) == [i] + a && WalkUp(down, j, other) == [j] + b;
    }
  }

  lemma SameLink(xs: seq<DocContainer>, ys: seq<DocContainer>, i: int, j: int)
    requires KeysDistinct(xs) && KeysDistinct(ys) && multiset(xs) == multiset(ys)
    requires 0 <= i < |xs| && 0 <= j < |ys| && xs[i] == ys[j]
    ensures i in EntryLinks(xs) <==> j in EntryLinks(ys)
    ensures i in EntryLinks(xs) ==> (
      && HangsFrom(xs, i, EntryLinks(xs)[i]) && HangsFrom(ys, j, EntryLinks(ys)[j])
      && xs[EntryLinks(xs)[i]] == ys[EntryLinks(ys)[j]])
  {
    PermutedMembers(xs, ys);
    if i in EntryLinks(xs) {
      LinkCarriesOver(xs, ys, i, j);
    }
    if j in EntryLinks(ys) {
      LinkCarriesOver(ys, xs, j, i);
    }
  }

  lemma LinkCarriesOver(xs: seq<DocContainer>, ys: seq<DocContainer>, i: int, j: int)
    requires KeysDistinct(xs) && KeysDistinct(ys) && forall x :: x in xs ==> x in ys
    requires 0 <= i < |xs| && 0 <= j < |ys| && xs[i] == ys[j]
    requires i in EntryLinks(xs)
    ensures j in EntryLinks(ys) && HangsFrom(xs, i, EntryLinks(xs)[i]) && HangsFrom(ys, j, EntryLinks(ys)[j])
    ensures xs[EntryLinks(xs)[i]] == ys[EntryLinks(ys)[j]]
  {
    var p := EntryLinks(xs)[i];
    assert HangsFrom(xs, i, p);
    assert xs[p] in ys;
    var q :| 0 <= q < |ys| && ys[q] == xs[p];
    assert HangsFrom(ys, j, q);
  }

  lemma PlaceForgetsOrder(xs: seq<DocContainer>, ys: seq<DocContainer>)
    requires KeysDistinct(xs) && KeysDistinct(ys) && multiset(xs) == multiset(ys)
    ensures multiset(Place(xs)) == multiset(Place(ys))
    ensures AnyLoop(xs) <==> AnyLoop(ys)
    ensures KeysTellApart(Place(xs), PlacedOrder)
  {
    KeysDistinctDistinct(xs);
    KeysDistinctDistinct(ys);
    PlacedInBoth(xs, ys);
    PlacedInBoth(ys, xs);
    PlaceDistinct(xs);
    PlaceDistinct(ys);
    SameMembersPermute(Place(xs), Place(ys));
    PlacedTellApart(xs);
  }

  lemma PlaceDistinct(xs: seq<DocContainer>)
    requires KeysDistinct(xs)
    ensures Distinct(Place(xs))
  {
    forall i, j | 0 <= i < j < |xs| ensures Place(xs)[i] != Place(xs)[j] {
      assert EntryKey(xs[i]) != EntryKey(xs[j]);
    }
  }

  lemma PlacedTellApart(xs: seq<DocContainer>)
    requires KeysDistinct(xs)
    ensures KeysTellApart(Place(xs), PlacedOrder)
  {
    var placed := Place(xs);
    forall i, j | 0 <= i < |placed| && 0 <= j < |placed| && PlacedOrder(placed[i]) == PlacedOrder(placed[j])
      ensures placed[i] == placed[j]
    {
      assert PlacedOrder(placed[i])[0] == PlacedOrder(placed[j])[0];
      assert PlacedOrder(placed[i])[2] == PlacedOrder(placed[j])[2];
      assert EntryKey(xs[i]) == EntryKey(xs[j]);
    }
  }

  lemma PlacedInBoth(xs: seq<DocContainer>, ys: seq<DocContainer>)
    requires KeysDistinct(xs) && KeysDistinct(ys) && multiset(xs) == multiset(ys)
    ensures forall placed :: placed in Place(xs) ==> placed in Place(ys)
    ensures AnyLoop(xs) ==> AnyLoop(ys)
  {
    PermutedMembers(xs, ys);
    forall i | 0 <= i < |xs| ensures Place(xs)[i] in Place(ys) && (Loops(EntryLinks(xs), i) ==> AnyLoop(ys)) {
      var j := SamePlace(xs, ys, i);
      assert Place(ys)[j] == Place(xs)[i];
    }
  }

  lemma SamePlace(xs: seq<DocContainer>, ys: seq<DocContainer>, i: int) returns (j: int)
    requires KeysDistinct(xs) && KeysDistinct(ys) && multiset(xs) == multiset(ys)
    requires 0 <= i < |xs|
    ensures 0 <= j < |ys| && ys[j] == xs[i] && Depth(ys, j) == Depth(xs, i)
    ensures Loops(EntryLinks(xs), i) <==> Loops(EntryLinks(ys), j)
  {
    PermutedMembers(xs, ys);
    assert xs[i] in ys;
    j :| 0 <= j < |ys| && ys[j] == xs[i];
    ScanForgetsOrder(xs, ys, i, j, {}, {});
  }

  /** Listing the same entries in another order gives the same answer. */
  lemma OrderedForgetsOrder(xs: seq<DocContainer>, ys: seq<DocContainer>)
    requires multiset(xs) == multiset(ys)
    ensures Ordered(xs) == Ordered(ys)
  {
    if KeysDistinct(xs) {
      PermutedKeysDistinct(xs, ys);
      PlaceForgetsOrder(xs, ys);
      SortForgetsOrder(Place(xs), Place(ys), PlacedOrder);
    } else if KeysDistinct(ys) {
      PermutedKeysDistinct(ys, xs);
    }
  }

  // ---- What order it is -------------------------------------------------------------------

  /**
   Containers of one room stand together, rooms in the order of their names ignoring ASCII
   case; within a room those with fewer ancestors come first, and then it goes by name.
   */
  lemma OrderedGroups(entries: seq<DocContainer>, i: nat, j: nat) returns (a: int, b: int)
    requires Ordered(entries).Ok? && i < j < |Ordered(entries).value|
    ensures var x, y := Ordered(entries).value[i], Ordered(entries).value[j];
      && 0 <= a < |entries| && 0 <= b < |entries| && entries[a] == x && entries[b] == y
      && !Less(ScopeKey(y.room), ScopeKey(x.room))
      && (ScopeKey(x.room) == ScopeKey(y.room) ==> Depth(entries, a) <= Depth(entries, b))
      && (ScopeKey(x.room) == ScopeKey(y.room) && Depth(entries, a) == Depth(entries, b) ==>
        !Less(ScopeKey(y.name), ScopeKey(x.name)))
  {
    hide ScopeKey, Less, KeyLess, Depth, AnyLoop, KeysDistinct;
    var placed := Place(entries);
    var sorted := StableSort(placed, PlacedOrder);
    SortSorted(placed, PlacedOrder);
    a := PlacedFind(entries, i);
    b := PlacedFind(entries, j);
    var k, l := PlacedOrder(sorted[i]), PlacedOrder(sorted[j]);
    PartsInOrder(k, l, 0);
    if k[0] == l[0] {
      assert k[..1] == l[..1];
      PartsInOrder(k, l, 1);
      if k[1] == l[1] {
        assert k[..2] == l[..2];
        PartsInOrder(k, l, 2);
      }
    }
  }
}
