/**
 What every reachable store state satisfies, and the proof that every mutation
 keeps it and that a refused mutation changes nothing.
 */
module StoreInvariant {
  import opened Inventory
  import opened Forest
  import opened StoreModel

  predicate RoomsSound(s: State) {
    && s.nextRoom > 0
    && (forall id :: id in s.rooms ==> 0 < id < s.nextRoom && s.rooms[id].id == id && RoomAtRest(s.rooms[id]))
    && RoomNamesUnique(s.rooms)
  }

  /** The parent of a container exists and lives in the same room. */
  predicate ParentsSound(cs: Containers) {
    forall id :: id in cs && cs[id].parent.Some? ==>
      cs[id].parent.value in cs && cs[cs[id].parent.value].roomId == cs[id].roomId
  }

  predicate ContainerRowsSound(s: State) {
    && s.nextContainer > 0
    && (forall id :: id in s.containers ==>
      0 < id < s.nextContainer && s.containers[id].id == id && ContainerAtRest(s.containers[id]) && s.containers[id].roomId in s.rooms)
  }

  ghost predicate IsForest(cs: Containers) {
    Acyclic(ParentLinks(cs))
  }

  ghost predicate ContainersSound(s: State) {
    ContainerRowsSound(s) && ParentsSound(s.containers) && IsForest(s.containers) && ContainerNamesUnique(s.containers)
  }

  predicate ItemsSound(s: State) {
    && s.nextItem > 0
    && (forall id :: id in s.items ==>
      0 < id < s.nextItem && s.items[id].id == id && ItemAtRest(s.items[id]) && LocationExists(s, s.items[id].location))
    && ItemNamesUnique(s.items)
  }

  /** The invariant of the store. */
  ghost predicate Sound(s: State) {
    RoomsSound(s) && ContainersSound(s) && ItemsSound(s)
  }

  /** Every row is stored under its own id. */
  predicate RowsKnowIds(s: State) {
    && (forall id :: id in s.rooms ==> s.rooms[id].id == id)
    && RowsKeyed(s.containers)
    && (forall id :: id in s.items ==> s.items[id].id == id)
  }

  /** What a row of a sound store can rely on: its id, and the rows it refers to. */
  lemma SoundRows(s: State)
    requires Sound(s)
    ensures RowsKnowIds(s)
    ensures forall id :: id in s.containers ==> s.containers[id].roomId in s.rooms
    ensures forall id :: id in s.items ==> LocationExists(s, s.items[id].location)
  {
  }

  lemma SoundForest(s: State)
    requires Sound(s)
    ensures IsForest(s.containers) && ParentsSound(s.containers)
  {
  }

  /** The ids handed out next are not in use. */
  lemma IdsAreNew(s: State)
    requires Sound(s)
    ensures s.nextRoom !in s.rooms && s.nextContainer !in s.containers && s.nextItem !in s.items
  {
  }

  // ---- The parent relation under updates --------------------------------------

  /** `id` hangs from `parent`; everything else hangs where it hung. */
  function Rehung(up: Links, id: int, parent: Option<int>): Links {
    if parent.Some? then up[id := parent.value] else up - {id}
  }

  lemma LinksAfterPut(cs: Containers, row: Container)
    requires ParentsSound(cs)
    requires row.parent.Some? ==> row.parent.value in cs
    ensures ParentLinks(cs[row.id := row]) == Rehung(ParentLinks(cs), row.id, row.parent)
  {
    var next, links := ParentLinks(cs[row.id := row]), Rehung(ParentLinks(cs), row.id, row.parent);
    forall x ensures x in next <==> x in links {
    }
    assert next.Keys == links.Keys;
  }

  lemma LinksAfterMove(cs: Containers, id: int, roomId: int, parent: Option<int>)
    requires id in cs
    requires parent.Some? ==> parent.value in cs
    ensures ParentLinks(MovedRows(cs, id, roomId, parent)) == Rehung(ParentLinks(cs), id, parent)
  {
    var next := MovedRows(cs, id, roomId, parent);
    WalkUpLinked(ParentLinks(cs), id, {});
    assert next[id].parent == parent;
    LinksFollowParents(cs, next, id, parent);
  }

  /** The parent relation depends on the parents alone. */
  lemma LinksFollowParents(cs: Containers, next: Containers, id: int, parent: Option<int>)
    requires next.Keys == cs.Keys && id in cs && next[id].parent == parent
    requires forall x :: x in cs && x != id ==> next[x].parent == cs[x].parent
    requires parent.Some? ==> parent.value in cs
    ensures ParentLinks(next) == Rehung(ParentLinks(cs), id, parent)
  {
    var before, after := Rehung(ParentLinks(cs), id, parent), ParentLinks(next);
    forall x ensures x in after <==> x in before {
      assert x in cs && x != id ==> next[x].parent == cs[x].parent;
    }
    forall x | x in after ensures after[x] == before[x] {
      assert x != id ==> next[x].parent == cs[x].parent;
    }
  }

  lemma MeetsIsReaches(cs: Containers, start: int, id: int)
    requires IsForest(cs)
    ensures WalkMeets(cs, start, id) <==> Reaches(ParentLinks(cs), start, id)
  {
    WalkUpIsChain(ParentLinks(cs), start);
  }

  /**
   The cycle guard is exact: the walk from the new parent meets the container
   just when hanging it there would make the tree cyclic.
   */
  lemma CycleGuardExact(cs: Containers, id: int, parent: Option<int>)
    requires IsForest(cs)
    ensures Acyclic(Rehung(ParentLinks(cs), id, parent)) <==> !(parent.Some? && WalkMeets(cs, parent.value, id))
  {
    if parent.Some? {
      MeetsIsReaches(cs, parent.value, id);
      AttachAcyclicIff(ParentLinks(cs), id, parent.value);
    } else {
      DetachAcyclic(ParentLinks(cs), id);
    }
  }

  /** Everything below a member of the subtree is in the subtree, and back. */
  lemma SubtreeFollowsLinks(cs: Containers, id: int, x: int)
    requires IsForest(cs) && ParentsSound(cs)
    requires x in cs && x != id
    ensures WalkMeets(cs, x, id) <==> cs[x].parent.Some? && WalkMeets(cs, cs[x].parent.value, id)
  {
    MeetsIsReaches(cs, x, id);
    if cs[x].parent.Some? {
      MeetsIsReaches(cs, cs[x].parent.value, id);
    }
  }

  // ---- Rooms ---------------------------------------------------------------------

  lemma CreateRoomWrites(s: State, room: Room)
    requires CreateRoom(s, room).1.Ok?
    ensures var (t, r) := CreateRoom(s, room);
      && r.value == NormalRoom(room).(id := s.nextRoom) && ValidRoom(NormalRoom(room))
      && t == s.(rooms := s.rooms[s.nextRoom := r.value], nextRoom := s.nextRoom + 1, log := t.log)
      && RoomNamesUnique(t.rooms)
  {
  }

  lemma UpdateRoomWrites(s: State, room: Room)
    requires UpdateRoom(s, room).1.Ok?
    ensures var (t, r) := UpdateRoom(s, room);
      && r.value == NormalRoom(room) && ValidRoom(NormalRoom(room)) && room.id in s.rooms
      && t == s.(rooms := s.rooms[room.id := r.value], log := t.log)
      && RoomNamesUnique(t.rooms)
  {
  }

  lemma PutRoomSound(s: State, t: State, row: Room)
    requires RoomsSound(s) && t.rooms == s.rooms[row.id := row]
    requires 0 < row.id < t.nextRoom && s.nextRoom <= t.nextRoom
    requires RoomAtRest(row) && RoomNamesUnique(t.rooms)
    ensures RoomsSound(t)
  {
    hide RoomAtRest, RoomNamesUnique;
  }

  /** More rooms leave containers and items as sound as they were. */
  lemma MoreRoomsSound(s: State, t: State)
    requires ContainersSound(s) && ItemsSound(s) && s.rooms.Keys <= t.rooms.Keys
    requires t.containers == s.containers && t.nextContainer == s.nextContainer
    requires t.items == s.items && t.nextItem == s.nextItem
    ensures ContainersSound(t) && ItemsSound(t)
  {
    hide ContainerAtRest, ItemAtRest, ContainerNamesUnique, ItemNamesUnique, ParentsSound, IsForest;
    forall id | id in t.items ensures LocationExists(t, t.items[id].location) {
      assert LocationExists(s, s.items[id].location);
    }
  }

  lemma CreateRoomSound(s: State, room: Room)
    requires Sound(s)
    ensures Sound(CreateRoom(s, room).0)
  {
    hide CreateRoom, ContainersSound, ItemsSound, RoomNamesUnique, RoomAtRest;
    var (t, r) := CreateRoom(s, room);
    RefusedRoom(s, room);
    if r.Ok? {
      CreateRoomWrites(s, room);
      RoomRests(room, s.nextRoom);
      PutRoomSound(s, t, r.value);
      MoreRoomsSound(s, t);
    }
  }

  lemma RefusedRoom(s: State, room: Room)
    ensures CreateRoom(s, room).1.Err? ==> CreateRoom(s, room).0 == s
    ensures UpdateRoom(s, room).1.Err? ==> UpdateRoom(s, room).0 == s
  {
  }

  lemma UpdateRoomSound(s: State, room: Room)
    requires Sound(s)
    ensures Sound(UpdateRoom(s, room).0)
  {
    hide UpdateRoom, ContainersSound, ItemsSound, RoomNamesUnique, RoomAtRest;
    var (t, r) := UpdateRoom(s, room);
    RefusedRoom(s, room);
    if r.Ok? {
      UpdateRoomWrites(s, room);
      RoomRests(room, room.id);
      PutRoomSound(s, t, r.value);
      MoreRoomsSound(s, t);
    }
  }

  lemma DeleteRoomSound(s: State, id: int)
    requires Sound(s)
    ensures Sound(DeleteRoom(s, id).0)
  {
    hide ItemsSound, IsForest, ParentsSound, RoomAtRest, ContainerAtRest, SameRoomAndName;
    var (t, r) := DeleteRoom(s, id);
    if r.Ok? {
      ItemsOutsideSound(s, t, InRoom(id));
    }
  }

  // ---- Containers -----------------------------------------------------------------

  lemma PutParentsSound(cs: Containers, row: Container)
    requires ParentsSound(cs)
    requires row.id in cs ==> cs[row.id].roomId == row.roomId
    requires ParentProblem(cs, row.parent, row.roomId).None?
    ensures ParentsSound(cs[row.id := row])
  {
  }

  lemma PutIsForest(cs: Containers, row: Container)
    requires ParentsSound(cs) && IsForest(cs)
    requires row.parent.Some? ==> row.parent.value in cs && !WalkMeets(cs, row.parent.value, row.id)
    ensures IsForest(cs[row.id := row])
  {
    LinksAfterPut(cs, row);
    CycleGuardExact(cs, row.id, row.parent);
  }

  lemma FreshNotMet(cs: Containers, newId: int, start: int)
    requires IsForest(cs)
    requires start in cs && newId !in cs
    ensures !WalkMeets(cs, start, newId)
  {
    MeetsIsReaches(cs, start, newId);
    ChainStaysInside(ParentLinks(cs), cs.Keys, start);
  }

  /** Places stay places while rooms and containers are only added or rewritten. */
  lemma ItemsStaySound(s: State, t: State)
    requires ItemsSound(s)
    requires t.items == s.items && t.nextItem == s.nextItem
    requires s.rooms.Keys <= t.rooms.Keys && s.containers.Keys <= t.containers.Keys
    ensures ItemsSound(t)
  {
    forall id | id in t.items ensures LocationExists(t, t.items[id].location) {
      assert LocationExists(s, s.items[id].location);
    }
  }

  lemma CreatedRowsSound(s: State, row: Container, t: State)
    requires ContainerRowsSound(s) && row.id == s.nextContainer && ContainerAtRest(row) && row.roomId in s.rooms
    requires t.rooms == s.rooms && t.containers == s.containers[row.id := row] && t.nextContainer == s.nextContainer + 1
    ensures ContainerRowsSound(t)
  {
  }

  lemma CreateContainerSound(s: State, container: Container)
    requires Sound(s)
    ensures Sound(CreateContainer(s, container).0)
  {
    var row := NormalContainer(container).(id := s.nextContainer);
    var (t, r) := CreateContainer(s, container);
    if r.Ok? {
      ContainerRests(container, s.nextContainer);
      if row.parent.Some? {
        FreshNotMet(s.containers, s.nextContainer, row.parent.value);
      }
      PutParentsSound(s.containers, row);
      PutIsForest(s.containers, row);
      CreatedRowsSound(s, row, t);
      ItemsStaySound(s, t);
    }
  }

  lemma UpdatedRowsSound(s: State, row: Container, t: State)
    requires ContainerRowsSound(s) && row.id in s.containers && ContainerAtRest(row) && row.roomId in s.rooms
    requires t.rooms == s.rooms && t.containers == s.containers[row.id := row] && t.nextContainer == s.nextContainer
    ensures ContainerRowsSound(t)
  {
  }

  lemma UpdateContainerSound(s: State, container: Container)
    requires Sound(s)
    ensures Sound(UpdateContainer(s, container).0)
  {
    var row := NormalContainer(container);
    var (t, r) := UpdateContainer(s, container);
    if r.Ok? {
      ContainerRests(container, container.id);
      PutParentsSound(s.containers, row);
      PutIsForest(s.containers, row);
      UpdatedRowsSound(s, row, t);
      ItemsStaySound(s, t);
    }
  }

  lemma MovedParentsSound(cs: Containers, id: int, roomId: int, parent: Option<int>)
    requires ParentsSound(cs) && IsForest(cs) && id in cs
    requires parent.Some? ==> parent.value in cs && cs[parent.value].roomId == roomId && !WalkMeets(cs, parent.value, id)
    ensures ParentsSound(MovedRows(cs, id, roomId, parent))
  {
    var next := MovedRows(cs, id, roomId, parent);
    MeetsIsReaches(cs, id, id);
    forall x | x in next && next[x].parent.Some?
      ensures next[x].parent.value in next && next[next[x].parent.value].roomId == next[x].roomId
    {
      if x != id {
        SubtreeFollowsLinks(cs, id, x);
        assert next[x].parent == cs[x].parent;
      }
    }
  }

  lemma MovedRowsSound(s: State, id: int, roomId: int, parent: Option<int>)
    requires ContainerRowsSound(s) && roomId in s.rooms && roomId > 0
    requires parent.Some? ==> parent.value > 0 && parent.value != id
    ensures ContainerRowsSound(s.(containers := MovedRows(s.containers, id, roomId, parent)))
  {
  }

  lemma MovedIsForest(cs: Containers, id: int, roomId: int, parent: Option<int>)
    requires IsForest(cs) && id in cs
    requires parent.Some? ==> parent.value in cs && !WalkMeets(cs, parent.value, id)
    ensures IsForest(MovedRows(cs, id, roomId, parent))
  {
    LinksAfterMove(cs, id, roomId, parent);
    CycleGuardExact(cs, id, parent);
  }

  lemma MoveContainerSound(s: State, id: int, destination: Location)
    requires Sound(s)
    ensures Sound(MoveContainer(s, id, destination).0)
  {
    var (t, r) := MoveContainer(s, id, destination);
    if r.Ok? {
      var roomId, parent := DestinationRoom(s, destination), DestinationParent(destination);
      if parent.Some? {
        MeetsIsReaches(s.containers, id, id);
      }
      MovedRowsSound(s, id, roomId, parent);
      MovedParentsSound(s.containers, id, roomId, parent);
      MovedIsForest(s.containers, id, roomId, parent);
      ItemsStaySound(s, t);
    }
  }

  lemma DeletedIsForest(cs: Containers, id: int)
    requires IsForest(cs)
    requires forall c :: c in cs ==> cs[c].parent != Some(id)
    ensures IsForest(cs - {id})
  {
    var next, links := ParentLinks(cs - {id}), ParentLinks(cs) - {id};
    forall x ensures x in next <==> x in links {
    }
    assert next == links;
    DetachAcyclic(ParentLinks(cs), id);
  }

  lemma DeletedParentsSound(cs: Containers, id: int)
    requires ParentsSound(cs)
    requires forall c :: c in cs ==> cs[c].parent != Some(id)
    ensures ParentsSound(cs - {id})
  {
  }

  /** Every place but one is still there, and no item was in that one. */
  lemma ItemsOutsideSound(s: State, t: State, gone: Location)
    requires ItemsSound(s)
    requires t.items == s.items && t.nextItem == s.nextItem
    requires forall i :: i in s.items ==> s.items[i].location != gone
    requires gone.kind.RoomKind? ==> t.containers == s.containers && t.rooms == s.rooms - {gone.id}
    requires gone.kind.ContainerKind? ==> t.rooms == s.rooms && t.containers == s.containers - {gone.id}
    requires !gone.kind.OtherKind?
    ensures ItemsSound(t)
  {
    forall id | id in t.items ensures LocationExists(t, t.items[id].location) {
      assert LocationExists(s, s.items[id].location);
    }
  }

  lemma NothingInside(s: State, id: int)
    requires !ContainerHoldsSomething(s, id)
    ensures forall i :: i in s.items ==> s.items[i].location != InContainer(id)
    ensures forall c :: c in s.containers ==> s.containers[c].parent != Some(id)
  {
  }

  lemma DeletedRowsSound(s: State, t: State, id: int)
    requires ContainerRowsSound(s) && t.containers == s.containers - {id}
    requires t.rooms == s.rooms && t.nextContainer == s.nextContainer
    ensures ContainerRowsSound(t)
  {
  }

  lemma DeleteContainerSound(s: State, id: int)
    requires Sound(s)
    ensures Sound(DeleteContainer(s, id).0)
  {
    hide ItemsSound, IsForest, ParentsSound, ContainerRowsSound, ContainerHoldsSomething, SameRoomAndName;
    var (t, r) := DeleteContainer(s, id);
    if r.Ok? {
      NothingInside(s, id);
      DeletedIsForest(s.containers, id);
      DeletedParentsSound(s.containers, id);
      ItemsOutsideSound(s, t, InContainer(id));
      DeletedRowsSound(s, t, id);
    }
  }

  // ---- Items -------------------------------------------------------------------------

  /** Writing items leaves rooms and containers as sound as they were. */
  lemma PlacesStaySound(s: State, t: State)
    requires RoomsSound(s) && ContainersSound(s)
    requires t.rooms == s.rooms && t.nextRoom == s.nextRoom
    requires t.containers == s.containers && t.nextContainer == s.nextContainer
    ensures RoomsSound(t) && ContainersSound(t)
  {
  }

  lemma PutItemSound(s: State, t: State, row: Item)
    requires ItemsSound(s) && t.items == s.items[row.id := row]
    requires t.rooms == s.rooms && t.containers == s.containers
    requires 0 < row.id < t.nextItem && s.nextItem <= t.nextItem
    requires ItemAtRest(row) && LocationExists(s, row.location) && ItemNamesUnique(t.items)
    ensures ItemsSound(t)
  {
    forall id | id in t.items ensures ItemAtRest(t.items[id]) && LocationExists(t, t.items[id].location) {
      if id != row.id {
        assert LocationExists(s, s.items[id].location);
      }
    }
  }

  lemma CreateItemWrites(s: State, item: Item)
    requires CreateItem(s, item).1.Ok?
    ensures var (t, r) := CreateItem(s, item);
      && r.value == StoredItem(NormalItem(item)).(id := s.nextItem) && ValidItem(NormalItem(item))
      && t == s.(items := s.items[r.value.id := r.value], nextItem := s.nextItem + 1, log := t.log)
      && LocationExists(s, r.value.location) && ItemNamesUnique(t.items)
  {
  }

  lemma UpdateItemWrites(s: State, item: Item)
    requires UpdateItem(s, item).1.Ok?
    ensures var (t, r) := UpdateItem(s, item);
      && r.value == StoredItem(NormalItem(item)) && ValidItem(NormalItem(item)) && item.id in s.items
      && t == s.(items := s.items[item.id := r.value], log := t.log)
      && LocationExists(s, r.value.location) && ItemNamesUnique(t.items)
  {
  }

  lemma CreateItemSound(s: State, item: Item)
    requires Sound(s)
    ensures Sound(CreateItem(s, item).0)
  {
    var (t, r) := CreateItem(s, item);
    if r.Ok? {
      CreateItemWrites(s, item);
      ItemRests(item, s.nextItem);
      PutItemSound(s, t, r.value);
      PlacesStaySound(s, t);
    }
  }

  lemma UpdateItemSound(s: State, item: Item)
    requires Sound(s)
    ensures Sound(UpdateItem(s, item).0)
  {
    var (t, r) := UpdateItem(s, item);
    if r.Ok? {
      UpdateItemWrites(s, item);
      ItemRests(item, item.id);
      PutItemSound(s, t, r.value);
      PlacesStaySound(s, t);
    }
  }

  lemma MovedItemRests(item: Item, destination: Location)
    requires ItemAtRest(item) && ValidLocation(destination)
    ensures ItemAtRest(item.(location := destination))
  {
    hide StoredLabels, ValidLabels;
  }

  lemma MoveItemSound(s: State, id: int, destination: Location)
    requires Sound(s)
    ensures Sound(MoveItem(s, id, destination).0)
  {
    hide RoomsSound, ContainersSound, ItemAtRest, LocationExists, ItemNamesUnique, ValidLocation;
    var (t, r) := MoveItem(s, id, destination);
    if r.Ok? {
      MovedItemRests(s.items[id], destination);
      PutItemSound(s, t, s.items[id].(location := destination));
      PlacesStaySound(s, t);
    }
  }

  lemma DropItemSound(s: State, t: State, id: int)
    requires ItemsSound(s) && t.items == s.items - {id} && t.nextItem == s.nextItem
    requires t.rooms == s.rooms && t.containers == s.containers
    ensures ItemsSound(t)
  {
    hide ItemAtRest, SameSlot;
    forall x | x in t.items ensures LocationExists(t, t.items[x].location) {
      assert LocationExists(s, s.items[x].location);
    }
  }

  lemma DeleteItemSound(s: State, id: int)
    requires Sound(s)
    ensures Sound(DeleteItem(s, id).0)
  {
    hide RoomsSound, ContainersSound, ItemsSound;
    var (t, r) := DeleteItem(s, id);
    if r.Ok? {
      DropItemSound(s, t, id);
      PlacesStaySound(s, t);
    }
  }

  // ---- Every run ------------------------------------------------------------------------

  lemma NothingLinked(up: Links)
    requires up.Keys == {}
    ensures Acyclic(up)
  {
    assert Ranked(up, map[]);
  }

  lemma EmptySound()
    ensures Sound(EMPTY)
  {
    hide Acyclic, RoomAtRest, ContainerAtRest, ItemAtRest;
    NothingLinked(ParentLinks(EMPTY.containers));
  }

  /** A refused call changes neither a table nor the log. */
  lemma RefusalChangesNothing(s: State, op: Op)
    ensures Step(s, op).1.Some? ==> Step(s, op).0 == s
  {
  }

  lemma StepSound(s: State, op: Op)
    requires Sound(s)
    ensures Sound(Step(s, op).0)
  {
    hide Sound, CreateRoom, UpdateRoom, DeleteRoom, CreateContainer, UpdateContainer, MoveContainer, DeleteContainer;
    hide CreateItem, UpdateItem, MoveItem, DeleteItem;
    match op
    case OpCreateRoom(room) => CreateRoomSound(s, room);
    case OpUpdateRoom(room) => UpdateRoomSound(s, room);
    case OpDeleteRoom(id) => DeleteRoomSound(s, id);
    case OpCreateContainer(c) => CreateContainerSound(s, c);
    case OpUpdateContainer(c) => UpdateContainerSound(s, c);
    case OpMoveContainer(id, destination) => MoveContainerSound(s, id, destination);
    case OpDeleteContainer(id) => DeleteContainerSound(s, id);
    case OpCreateItem(item) => CreateItemSound(s, item);
    case OpUpdateItem(item) => UpdateItemSound(s, item);
    case OpMoveItem(id, destination) => MoveItemSound(s, id, destination);
    case OpDeleteItem(id) => DeleteItemSound(s, id);
  }

  lemma {:induction false} RunSound(s: State, ops: seq<Op>)
    requires Sound(s)
    ensures Sound(Run(s, ops))
    decreases |ops|
  {
    if ops != [] {
      StepSound(s, ops[0]);
      RunSound(Step(s, ops[0]).0, ops[1..]);
    }
  }

  /** The states a store can be in: what some sequence of calls leaves behind. */
  ghost predicate Reachable(s: State) {
    exists ops :: Run(EMPTY, ops) == s
  }

  lemma ReachableSound(s: State)
    requires Reachable(s)
    ensures Sound(s)
  {
    var ops :| Run(EMPTY, ops) == s;
    EmptySound();
    RunSound(EMPTY, ops);
  }
}
