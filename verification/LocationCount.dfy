/**
 Counting what a place holds. A count asks of every item whether the place is among
 its ancestors; that is counting what can be reached from the place downwards, and
 over all rooms the counts add up to the whole inventory.
 */
module LocationCount {
  import opened Sequences
  import opened Text
  import opened Inventory
  import opened Forest
  import opened StoreModel
  import opened StoreInvariant
  import opened StoreTree
  import opened Store
  import opened LocationIndex
  import opened LocationAgrees

  /** `inner` is reached from `place` by at most `steps` steps into a child. */
  ghost predicate HoldsWithin(s: State, place: Location, inner: Location, steps: nat)
    decreases steps
  {
    || place == inner
    || (steps > 0 && exists c :: (
        && c in s.containers && SitsIn(s.rooms, s.containers, place, s.containers[c])
        && HoldsWithin(s, InContainer(c), inner, steps - 1)))
  }

  /** A step down leads to one of the children the index answers for the place. */
  lemma StepsAreChildren(s: State, rows: seq<Container>, place: Location, inner: Location, steps: nat)
    requires Sound(s) && Lists(rows, s.containers)
    ensures HoldsWithin(s, place, inner, steps) <==>
      || place == inner
      || (steps > 0 && exists c :: (
          c in Sitting(s.rooms, s.containers, rows, place) && HoldsWithin(s, InContainer(c.id), inner, steps - 1)))
  {
    hide Sound, SitsIn;
    SoundRows(s);
    SittingMembers(s.rooms, s.containers, rows, place);
    forall c ensures c in rows <==> c.id in s.containers && s.containers[c.id] == c {
    }
    if steps > 0 {
      forall c | c in s.containers && SitsIn(s.rooms, s.containers, place, s.containers[c])
        ensures s.containers[c] in Sitting(s.rooms, s.containers, rows, place) && s.containers[c].id == c
      {
      }
    }
  }

  /** `inner` is the place or lies somewhere below it. */
  ghost predicate Holds(s: State, place: Location, inner: Location) {
    exists steps: nat :: HoldsWithin(s, place, inner, steps)
  }

  lemma {:induction false} HoldsDeeper(s: State, place: Location, parent: int, child: int, steps: nat)
    requires HoldsWithin(s, place, InContainer(parent), steps)
    requires parent in s.containers && child in s.containers && s.containers[child].parent == Some(parent)
    ensures HoldsWithin(s, place, InContainer(child), steps + 1)
    decreases steps
  {
    if place == InContainer(parent) {
      assert SitsIn(s.rooms, s.containers, place, s.containers[child]);
      assert HoldsWithin(s, InContainer(child), InContainer(child), steps);
    } else {
      var c :| c in s.containers && SitsIn(s.rooms, s.containers, place, s.containers[c])
        && HoldsWithin(s, InContainer(c), InContainer(parent), steps - 1);
      HoldsDeeper(s, InContainer(c), parent, child, steps - 1);
    }
  }

  /** From any ancestor there is a way down. */
  lemma {:induction false} DownFrom(s: State, place: Location, x: int, id: int, steps: nat) returns (more: nat)
    requires IsForest(s.containers) && id in s.containers && Reaches(ParentLinks(s.containers), id, x)
    requires HoldsWithin(s, place, InContainer(x), steps)
    ensures HoldsWithin(s, place, InContainer(id), more)
    decreases Height(ParentLinks(s.containers), id)
  {
    hide Acyclic;
    more := steps;
    if id != x {
      var parent := ParentLinks(s.containers)[id];
      more := DownFrom(s, place, x, parent, steps);
      HoldsDeeper(s, place, parent, id, more);
      more := more + 1;
    }
  }

  lemma TopOf(s: State, id: int) returns (top: int)
    requires Sound(s) && id in s.containers
    ensures top in s.containers && Reaches(ParentLinks(s.containers), id, top) && s.containers[top].parent.None?
    ensures s.containers[top].roomId == s.containers[id].roomId
  {
    var up := ParentLinks(s.containers);
    SoundRows(s);
    ChainEnds(up, id);
    top := Chain(up, id)[|Chain(up, id)| - 1];
    assert Reaches(up, id, top);
    OneRoomUpwards(s.containers, id, top);
  }

  /** What holds a child holds what the child holds. */
  lemma AncestorAbove(s: State, place: Location, c: int, inner: Location)
    requires Sound(s) && RowsKeyed(s.containers) && LocationExists(s, inner)
    requires c in s.containers && SitsIn(s.rooms, s.containers, place, s.containers[c])
    requires InContainer(c) in AncestorsOf(s.rooms, s.containers, inner)
    ensures place in AncestorsOf(s.rooms, s.containers, inner)
  {
    hide AncestorsOf, RoomsSound, ItemsSound, Acyclic;
    var up := ParentLinks(s.containers);
    assert inner.kind.ContainerKind? by { RoomAncestors(s, inner); }
    AncestorMembers(s, inner.id);
    assert inner == InContainer(inner.id);
    SoundRows(s);
    OneRoomUpwards(s.containers, inner.id, c);
    if place.kind.ContainerKind? {
      assert Chain(up, c) == [c] + Chain(up, place.id);
      ReachesTransitive(up, inner.id, c, place.id);
      assert place == InContainer(place.id);
    } else {
      assert place == InRoom(place.id);
    }
  }

  lemma RoomAncestors(s: State, inner: Location)
    requires RowsKeyed(s.containers)
    ensures inner.kind.RoomKind? ==>
      forall p :: p in AncestorsOf(s.rooms, s.containers, inner) ==> p == inner
  {
  }

  lemma {:induction false} HeldFromBelow(s: State, place: Location, inner: Location, steps: nat)
    requires Sound(s) && RowsKeyed(s.containers) && LocationExists(s, inner)
    requires HoldsWithin(s, place, inner, steps)
    ensures place in AncestorsOf(s.rooms, s.containers, inner)
    decreases steps
  {
    hide Sound, AncestorsOf, SitsIn;
    if place == inner {
      OwnAncestor(s, inner);
    } else {
      var c :| c in s.containers && SitsIn(s.rooms, s.containers, place, s.containers[c])
        && HoldsWithin(s, InContainer(c), inner, steps - 1);
      HeldFromBelow(s, InContainer(c), inner, steps - 1);
      AncestorAbove(s, place, c, inner);
    }
  }

  lemma OwnAncestor(s: State, place: Location)
    requires RowsKeyed(s.containers) && LocationExists(s, place)
    ensures place in AncestorsOf(s.rooms, s.containers, place)
  {
    if place.kind.ContainerKind? {
      assert AncestorsOf(s.rooms, s.containers, place)[0] == place;
    }
  }

  lemma HeldFromAbove(s: State, place: Location, inner: Location) returns (steps: nat)
    requires Sound(s) && RowsKeyed(s.containers) && LocationExists(s, inner)
    requires place in AncestorsOf(s.rooms, s.containers, inner)
    ensures HoldsWithin(s, place, inner, steps)
  {
    hide AncestorsOf, RoomsSound, ItemsSound;
    steps := 0;
    if inner.kind.RoomKind? {
      RoomAncestors(s, inner);
    } else {
      AncestorMembers(s, inner.id);
      assert inner == InContainer(inner.id);
      AncestorKinds(s, place, inner.id);
      if place.kind.ContainerKind? {
        steps := DownFrom(s, place, place.id, inner.id, 0);
      } else {
        var top := TopOf(s, inner.id);
        assert SitsIn(s.rooms, s.containers, place, s.containers[top]);
        assert HoldsWithin(s, InContainer(top), InContainer(top), 0);
        assert HoldsWithin(s, place, InContainer(top), 1);
        steps := DownFrom(s, place, top, inner.id, 1);
      }
    }
  }

  lemma AncestorKinds(s: State, place: Location, id: int)
    requires RowsKeyed(s.containers) && place in AncestorsOf(s.rooms, s.containers, InContainer(id))
    ensures place == InContainer(place.id) || place == InRoom(place.id)
  {
  }

  /** The ancestors of a location are the places from which it can be reached downwards. */
  lemma AncestorsAreHolders(s: State, place: Location, inner: Location)
    requires Sound(s) && LocationExists(s, inner)
    ensures RowsKeyed(s.containers)
    ensures place in AncestorsOf(s.rooms, s.containers, inner) <==> Holds(s, place, inner)
  {
    hide AncestorsOf, HoldsWithin;
    SoundRows(s);
    if place in AncestorsOf(s.rooms, s.containers, inner) {
      var steps := HeldFromAbove(s, place, inner);
    }
    if Holds(s, place, inner) {
      var steps: nat :| HoldsWithin(s, place, inner, steps);
      HeldFromBelow(s, place, inner, steps);
    }
  }

  // ---- Counting ----------------------------------------------------------------------------

  function Filter(items: seq<Item>, keep: Item -> bool): seq<Item> {
    if items == [] then []
    else Filter(items[..|items| - 1], keep) + if keep(items[|items| - 1]) then [items[|items| - 1]] else []
  }

  predicate HeldBy(rooms: Rooms, cs: Containers, place: Location, item: Item) {
    RowsKeyed(cs) && place in AncestorsOf(rooms, cs, item.location)
  }

  predicate Carries(item: Item, tag: string, same: (string, string) -> bool) {
    exists t :: t in item.tags && same(t, tag)
  }

  lemma {:induction false} FilterMembers(items: seq<Item>, keep: Item -> bool)
    ensures forall i :: i in Filter(items, keep) <==> i in items && keep(i)
  {
    if items != [] {
      var before, last := items[..|items| - 1], items[|items| - 1];
      FilterMembers(before, keep);
      assert items == before + [last];
    }
  }

  /** Items are looked at one by one, in the order of the list. */
  lemma {:induction false} FilterInOrder(a: seq<Item>, b: seq<Item>, keep: Item -> bool)
    ensures Filter(a + b, keep) == Filter(a, keep) + Filter(b, keep)
    ensures |b| == 1 ==> Filter(b, keep) == if keep(b[0]) then b else []
  {
    if b == [] {
      assert a + b == a;
    } else {
      var last := |b| - 1;
      FilterInOrder(a, b[..last], keep);
      assert (a + b)[..|a + b| - 1] == a + b[..last];
    }
  }

  lemma {:induction false} FilterDistinct(items: seq<Item>, keep: Item -> bool)
    requires Distinct(items)
    ensures Distinct(Filter(items, keep))
  {
    if items != [] {
      var before, last := items[..|items| - 1], items[|items| - 1];
      FilterDistinct(before, keep);
      FilterMembers(before, keep);
      var kept := Filter(before, keep);
      forall i | 0 <= i < |kept| ensures kept[i] != last {
        assert kept[i] in before;
      }
    }
  }

  /** A list of rows that are stored under their ids is as long as its set of ids. */
  lemma {:induction false} RowsAreIds(rows: seq<Item>, table: Items, ids: set<int>)
    requires Distinct(rows)
    requires forall row :: row in rows ==> row.id in ids
    requires forall id :: id in ids ==> id in table && table[id].id == id && table[id] in rows
    requires forall row :: row in rows ==> row.id in table && table[row.id] == row
    ensures |rows| == |ids|
    decreases |rows|
  {
    forall id | id in ids ensures exists row :: row in rows && row.id == id {
      assert table[id] in rows && table[id].id == id;
    }
    assert ids == (set row | row in rows :: row.id);
    if rows != [] {
      var before, last := rows[..|rows| - 1], rows[|rows| - 1];
      assert last in rows && rows == before + [last];
      forall row | row in before ensures row.id in ids - {last.id} {
        assert row in rows;
      }
      RowsAreIds(before, table, ids - {last.id});
      assert |ids| == |ids - {last.id}| + 1;
    }
  }

  /** The items a place holds and that carry the tag, if one is asked for. */
  ghost predicate Wanted(s: State, place: Option<Location>, tag: string, same: (string, string) -> bool, item: Item) {
    && (place.Some? ==> Holds(s, place.value, item.location))
    && (tag != "" ==> exists t :: t in item.tags && same(t, tag))
  }

  ghost function WantedIds(s: State, place: Option<Location>, tag: string, same: (string, string) -> bool): set<int> {
    set id | id in s.items && Wanted(s, place, tag, same, s.items[id])
  }

  /** What a name means to an index of the store, listed in some order. */
  ghost predicate Means(s: State, location: string, fold: string -> string, place: Outcome<Location>) {
    exists rooms, containers ::
      Lists(rooms, s.rooms) && Lists(containers, s.containers) && place == ResolveIn(IndexOf(rooms, containers, fold), location, fold)
  }

  function HeldIn(rooms: Rooms, cs: Containers, items: seq<Item>, place: Location): seq<Item> {
    Filter(items, i => HeldBy(rooms, cs, place, i))
  }

  function Tagged(items: seq<Item>, tag: string, same: (string, string) -> bool): seq<Item> {
    Filter(items, i => Carries(i, tag, same))
  }

  method HeldItems(index: Index, rows: seq<Item>, place: Location) returns (held: seq<Item>)
    requires RowsKeyed(index.containers)
    requires forall id :: id in index.rooms ==> index.rooms[id].id == id
    ensures held == HeldIn(index.rooms, index.containers, rows, place)
  {
    hide AncestorsOf;
    held := [];
    for i := 0 to |rows|
      invariant held == HeldIn(index.rooms, index.containers, rows[..i], place)
    {
      assert rows[..i + 1][..i] == rows[..i];
      var ancestors := Ancestors(index, rows[i].location);
      if place in ancestors {
        held := held + [rows[i]];
      }
    }
    assert rows[..|rows|] == rows;
  }

  /** Every item, or those a place holds. */
  method Candidates(repos: Repos, location: string, fold: string -> string)
    returns (r: Outcome<seq<Item>>, ghost items: seq<Item>, ghost place: Outcome<Location>)
    requires Sound(repos.View())
    ensures Lists(items, repos.View().items)
    ensures Trim(location) == "" ==> r == Ok(items)
    ensures Trim(location) != "" ==> Means(repos.View(), location, fold, place)
    ensures Trim(location) != "" && place.Err? ==> r == Err(place.error)
    ensures Trim(location) != "" && place.Ok? ==>
      r == Ok(HeldIn(repos.View().rooms, repos.View().containers, items, place.value))
  {
    hide Sound, IndexOf, ResolveIn, HeldIn, Trim;
    ghost var s := repos.View();
    var rows := repos.ListItems();
    items, place := rows, Err(NotFound);
    if Trim(location) == "" {
      return Ok(rows), items, place;
    }
    var rooms := repos.ListRooms();
    var containers := repos.ListContainers();
    var index := NewLocationIndex(rooms, containers, fold);
    IndexTables(s, rooms, containers, fold);
    SoundRows(s);
    var resolved := Resolve(index, location, fold);
    place := resolved;
    assert Means(s, location, fold, place);
    if resolved.Err? {
      return Err(resolved.error), items, place;
    }
    var held := HeldItems(index, rows, resolved.value);
    return Ok(held), items, place;
  }

  method CountTagged(items: seq<Item>, tag: string, same: (string, string) -> bool) returns (matches: nat)
    ensures matches == |Tagged(items, tag, same)|
  {
    matches := 0;
    for i := 0 to |items|
      invariant matches == |Tagged(items[..i], tag, same)|
    {
      assert items[..i + 1][..i] == items[..i];
      if exists t :: t in items[i].tags && same(t, tag) {
        matches := matches + 1;
      }
    }
    assert items[..|items|] == items;
  }

  /** What a count is taken over, given what the location was resolved to. */
  function Counted(s: State, items: seq<Item>, place: Option<Location>, tag: string, same: (string, string) -> bool): seq<Item> {
    var held := if place.Some? then HeldIn(s.rooms, s.containers, items, place.value) else items;
    if tag == "" then held else Tagged(held, tag, same)
  }

  lemma CountedMembers(s: State, items: seq<Item>, place: Option<Location>, tag: string, same: (string, string) -> bool)
    requires Sound(s) && Lists(items, s.items)
    ensures Distinct(Counted(s, items, place, tag, same))
    ensures forall i :: i in Counted(s, items, place, tag, same) <==> i in items && Wanted(s, place, tag, same, i)
  {
    hide AncestorsOf, Holds, Sound;
    SoundRows(s);
    var held := if place.Some? then HeldIn(s.rooms, s.containers, items, place.value) else items;
    if place.Some? {
      FilterMembers(items, i => HeldBy(s.rooms, s.containers, place.value, i));
      FilterDistinct(items, i => HeldBy(s.rooms, s.containers, place.value, i));
      forall i | i in items ensures i in held <==> Holds(s, place.value, i.location) {
        assert LocationExists(s, i.location);
        AncestorsAreHolders(s, place.value, i.location);
      }
    }
    FilterMembers(held, i => Carries(i, tag, same));
    FilterDistinct(held, i => Carries(i, tag, same));
  }

  /** However the store lists its items, the count is that of the items wanted. */
  lemma CountExact(s: State, items: seq<Item>, place: Option<Location>, tag: string, same: (string, string) -> bool)
    requires Sound(s) && Lists(items, s.items)
    ensures |Counted(s, items, place, tag, same)| == |WantedIds(s, place, tag, same)|
  {
    hide Sound, Counted, Wanted;
    SoundRows(s);
    CountedMembers(s, items, place, tag, same);
    RowsAreIds(Counted(s, items, place, tag, same), s.items, WantedIds(s, place, tag, same));
  }

  /**
   Counts the items that carry the tag, or all of them, in a place and everything
   inside it, or everywhere.
   */
  method CountItems(repos: Repos, tag: string, location: string, fold: string -> string, same: (string, string) -> bool)
    returns (r: Outcome<nat>, ghost place: Outcome<Location>)
    requires Sound(repos.View())
    ensures Trim(location) == "" ==> r == Ok(|WantedIds(repos.View(), None, tag, same)|)
    ensures Trim(location) != "" ==> Means(repos.View(), location, fold, place)
    ensures Trim(location) != "" && place.Err? ==> r == Err(place.error)
    ensures Trim(location) != "" && place.Ok? ==> r == Ok(|WantedIds(repos.View(), Some(place.value), tag, same)|)
  {
    hide Sound, Means, HeldIn, Trim, WantedIds, Tagged;
    var items: Outcome<seq<Item>>;
    ghost var rows: seq<Item>;
    items, rows, place := Candidates(repos, location, fold);
    if items.Err? {
      return Err(items.error), place;
    }
    CountExact(repos.View(), rows, if Trim(location) == "" then None else Some(place.value), tag, same);
    if tag == "" {
      return Ok(|items.value|), place;
    }
    var matches := CountTagged(items.value, tag, same);
    return Ok(matches), place;
  }

  // ---- Rooms share out the inventory ----------------------------------------------------------

  ghost function HeldIds(s: State, place: Location): set<int> {
    set id | id in s.items && Holds(s, place, s.items[id].location)
  }

  ghost function SumOfRooms(s: State, rooms: seq<Room>): nat {
    if rooms == [] then 0 else SumOfRooms(s, rooms[..|rooms| - 1]) + |HeldIds(s, InRoom(rooms[|rooms| - 1].id))|
  }

  ghost function HeldByAny(s: State, rooms: seq<Room>): set<int> {
    set id | id in s.items && exists room :: room in rooms && Holds(s, InRoom(room.id), s.items[id].location)
  }

  /** Every place that exists lies in one room. */
  lemma OneRoomHolds(s: State, inner: Location) returns (room: int)
    requires Sound(s) && LocationExists(s, inner)
    ensures room in s.rooms
    ensures forall r :: Holds(s, InRoom(r), inner) <==> r == room
  {
    hide Holds, AncestorsOf;
    SoundRows(s);
    room := if inner.kind.RoomKind? then inner.id else s.containers[inner.id].roomId;
    forall r ensures Holds(s, InRoom(r), inner) <==> r == room {
      AncestorsAreHolders(s, InRoom(r), inner);
      if inner.kind.RoomKind? {
        RoomAncestors(s, inner);
        OwnAncestor(s, inner);
        assert inner == InRoom(inner.id);
      } else {
        AncestorMembers(s, inner.id);
        assert inner == InContainer(inner.id);
      }
    }
  }

  lemma OneMoreRoom(s: State, before: seq<Room>, last: Room)
    requires Sound(s) && forall room :: room in before ==> room.id != last.id
    ensures HeldByAny(s, before + [last]) == HeldByAny(s, before) + HeldIds(s, InRoom(last.id))
    ensures HeldByAny(s, before) !! HeldIds(s, InRoom(last.id))
  {
    hide Holds, Sound;
    SoundRows(s);
    forall id | id in HeldByAny(s, before) ensures id !in HeldIds(s, InRoom(last.id)) {
      var room := OneRoomHolds(s, s.items[id].location);
    }
  }

  lemma {:induction false} SumIsUnion(s: State, rooms: seq<Room>)
    requires Sound(s)
    requires forall i, j :: 0 <= i < j < |rooms| ==> rooms[i].id != rooms[j].id
    ensures SumOfRooms(s, rooms) == |HeldByAny(s, rooms)|
    decreases |rooms|
  {
    hide Holds, Sound, HeldIds;
    if rooms == [] {
      assert HeldByAny(s, rooms) == {};
    } else {
      var before, last := rooms[..|rooms| - 1], rooms[|rooms| - 1];
      SumIsUnion(s, before);
      assert rooms == before + [last];
      OneMoreRoom(s, before, last);
    }
  }

  /** The counts of all rooms add up to the number of items. */
  lemma RoomCountsAddUp(s: State, rooms: seq<Room>)
    requires Sound(s) && Lists(rooms, s.rooms)
    ensures SumOfRooms(s, rooms) == |s.items|
  {
    hide Holds, Sound;
    SoundRows(s);
    forall i, j | 0 <= i < j < |rooms| ensures rooms[i].id != rooms[j].id {
      assert rooms[i] in rooms && rooms[j] in rooms;
    }
    SumIsUnion(s, rooms);
    forall id | id in s.items ensures id in HeldByAny(s, rooms) {
      var room := OneRoomHolds(s, s.items[id].location);
      assert s.rooms[room] in rooms && s.rooms[room].id == room;
    }
    assert HeldByAny(s, rooms) == s.items.Keys;
  }
}
