/**
 What each mutation comes to in a sound store: exactly when it succeeds, the tables and the
 event it leaves, and otherwise which error it answers.
 */
module StoreOutcomes {
  import opened Sequences
  import opened Text
  import opened Inventory
  import opened Forest
  import opened StoreModel
  import opened StoreInvariant
  import opened StoreTree

  // ---- Names that are free -------------------------------------------------------------

  /** No room but `id` goes by the name, ignoring ASCII case. */
  predicate RoomNameFree(s: State, id: int, name: string) {
    forall x :: x in s.rooms && x != id ==> ScopeKey(s.rooms[x].name) != ScopeKey(name)
  }

  predicate ContainerNameFree(s: State, id: int, roomId: int, name: string) {
    forall x :: x in s.containers && x != id && s.containers[x].roomId == roomId ==>
      ScopeKey(s.containers[x].name) != ScopeKey(name)
  }

  predicate ItemNameFree(s: State, id: int, place: Location, name: string) {
    forall x :: x in s.items && x != id && s.items[x].location == place ==> ScopeKey(s.items[x].name) != ScopeKey(name)
  }

  lemma RoomFreeIsUnique(s: State, row: Room)
    requires Sound(s)
    ensures RoomNamesUnique(s.rooms[row.id := row]) <==> RoomNameFree(s, row.id, row.name)
  {
    hide RoomAtRest, ContainersSound, ItemsSound;
    var table := s.rooms[row.id := row];
    if RoomNamesUnique(table) {
      forall x | x in s.rooms && x != row.id ensures ScopeKey(s.rooms[x].name) != ScopeKey(row.name) {
        assert x in table && row.id in table;
      }
    }
  }

  lemma ContainerFreeIsUnique(s: State, row: Container)
    requires Sound(s)
    ensures ContainerNamesUnique(s.containers[row.id := row]) <==> ContainerNameFree(s, row.id, row.roomId, row.name)
  {
    hide RoomsSound, ContainerRowsSound, ItemsSound, ParentsSound, IsForest;
    var table := s.containers[row.id := row];
    if ContainerNamesUnique(table) {
      forall x | x in s.containers && x != row.id && s.containers[x].roomId == row.roomId
        ensures ScopeKey(s.containers[x].name) != ScopeKey(row.name)
      {
        assert SameRoomAndName(table[x], table[row.id]) <==> ScopeKey(table[x].name) == ScopeKey(row.name);
      }
    }
  }

  lemma ItemFreeIsUnique(s: State, row: Item)
    requires Sound(s)
    ensures ItemNamesUnique(s.items[row.id := row]) <==> ItemNameFree(s, row.id, row.location, row.name)
  {
    hide RoomsSound, ContainersSound, ItemAtRest, LocationExists;
    var table := s.items[row.id := row];
    if ItemNamesUnique(table) {
      forall x | x in s.items && x != row.id && s.items[x].location == row.location
        ensures ScopeKey(s.items[x].name) != ScopeKey(row.name)
      {
        assert SameSlot(table[x], table[row.id]) <==> ScopeKey(table[x].name) == ScopeKey(row.name);
      }
    }
    if ItemNameFree(s, row.id, row.location, row.name) {
      forall a, b | a in table && b in table && SameSlot(table[a], table[b]) ensures a == b {
        assert a != row.id && b != row.id ==> SameSlot(s.items[a], s.items[b]);
      }
    }
  }

  // ---- Rooms ------------------------------------------------------------------------------

  lemma CreateRoomExact(s: State, room: Room)
    requires Sound(s)
    ensures var (t, r) := CreateRoom(s, room);
      var row := Room(s.nextRoom, Trim(room.name), Trim(room.description));
      && (r.Ok? <==> ValidRoom(row) && RoomNameFree(s, row.id, row.name))
      && (r.Ok? ==> r.value == row && t == s.(
        rooms := s.rooms[row.id := row], nextRoom := s.nextRoom + 1, log := s.log + [RoomCreated(row)]))
      && (r.Err? ==> t == s && r.error == if ValidRoom(row) then Conflict else Validation)
  {
    hide Sound, RoomNamesUnique, RoomNameFree, Trim;
    RoomFreeIsUnique(s, Room(s.nextRoom, Trim(room.name), Trim(room.description)));
  }

  lemma UpdateRoomExact(s: State, room: Room)
    requires Sound(s)
    ensures var (t, r) := UpdateRoom(s, room);
      var row := Room(room.id, Trim(room.name), Trim(room.description));
      var refusal := if !ValidRoom(row) then Validation else if row.id !in s.rooms then NotFound else Conflict;
      && (r.Ok? <==> ValidRoom(row) && row.id in s.rooms && RoomNameFree(s, row.id, row.name))
      && (r.Ok? ==> r.value == row && t == s.(rooms := s.rooms[row.id := row], log := s.log + [RoomUpdated(row)]))
      && (r.Err? ==> t == s && r.error == refusal)
  {
    hide Sound, RoomNamesUnique, RoomNameFree, Trim;
    RoomFreeIsUnique(s, Room(room.id, Trim(room.name), Trim(room.description)));
  }

  /** Nothing is placed in the room: no container of any depth, and no item. */
  predicate RoomEmpty(s: State, id: int) {
    && (forall x :: x in s.containers ==> s.containers[x].roomId != id)
    && (forall x :: x in s.items ==> s.items[x].location != Location(RoomKind, id))
  }

  lemma DeleteRoomExact(s: State, id: int)
    ensures var (t, r) := DeleteRoom(s, id);
      && (r.Ok? <==> id in s.rooms && RoomEmpty(s, id))
      && (r.Ok? ==> t == s.(rooms := s.rooms - {id}, log := s.log + [RoomDeleted(s.rooms[id])]))
      && (r.Err? ==> t == s && r.error == if id in s.rooms then Conflict else NotFound)
  {
  }

  // ---- Containers -----------------------------------------------------------------------------

  /** The parent, if any, is there and in the same room. */
  predicate ParentFits(s: State, parent: Option<int>, roomId: int) {
    parent.Some? ==> parent.value in s.containers && s.containers[parent.value].roomId == roomId
  }

  lemma CreateContainerExact(s: State, c: Container)
    requires Sound(s)
    ensures var (t, r) := CreateContainer(s, c);
      var row := Container(s.nextContainer, c.roomId, c.parent, Trim(c.name), Trim(c.description));
      var valid := ValidContainer(row.(id := c.id));
      var placed := c.roomId in s.rooms && ParentFits(s, c.parent, c.roomId);
      var refusal :=
        if !valid then Validation
        else if c.roomId !in s.rooms || (c.parent.Some? && c.parent.value !in s.containers) then NotFound
        else if !placed then Validation
        else Conflict;
      && (r.Ok? <==> valid && placed && ContainerNameFree(s, row.id, c.roomId, row.name))
      && (r.Ok? ==> r.value == row && t == s.(
        containers := s.containers[row.id := row], nextContainer := s.nextContainer + 1,
        log := s.log + [ContainerCreated(row)]))
      && (r.Err? ==> t == s && r.error == refusal)
  {
    hide Sound, ContainerNamesUnique, ContainerNameFree, Trim, ValidContainer;
    ContainerFreeIsUnique(s, Container(s.nextContainer, c.roomId, c.parent, Trim(c.name), Trim(c.description)));
  }

  lemma UpdateContainerExact(s: State, c: Container)
    requires Sound(s)
    ensures var (t, r) := UpdateContainer(s, c);
      var row := Container(c.id, c.roomId, c.parent, Trim(c.name), Trim(c.description));
      var stays := c.id in s.containers && s.containers[c.id].roomId == c.roomId;
      var tree := Acyclic(Rehung(ParentLinks(s.containers), c.id, c.parent));
      var placed := stays && ParentFits(s, c.parent, c.roomId);
      var refusal :=
        if !ValidContainer(row) then Validation
        else if c.id !in s.containers then NotFound
        else if !stays then Validation
        else if c.parent.Some? && c.parent.value !in s.containers then NotFound
        else if !placed then Validation
        else if !tree then Cycle
        else Conflict;
      && (r.Ok? <==> ValidContainer(row) && placed && tree && ContainerNameFree(s, row.id, c.roomId, row.name))
      && (r.Ok? ==> r.value == row && t == s.(
        containers := s.containers[row.id := row], log := s.log + [ContainerUpdated(row)]))
      && (r.Err? ==> t == s && r.error == refusal)
  {
    hide RoomsSound, ContainerRowsSound, ItemsSound, ParentsSound, IsForest, ContainerNamesUnique, ContainerNameFree, Trim, ValidContainer;
    hide WalkMeets, Acyclic, Rehung, ParentLinks;
    ContainerFreeIsUnique(s, Container(c.id, c.roomId, c.parent, Trim(c.name), Trim(c.description)));
    CycleGuardExact(s.containers, c.id, c.parent);
  }

  /** The container lies in the subtree: following parents leads from it to the top of it. */
  ghost predicate Below(s: State, x: int, id: int)
    requires IsForest(s.containers)
  {
    Reaches(ParentLinks(s.containers), x, id)
  }

  /** No container that moves along has the name of one that is in the room and does not. */
  ghost predicate SubtreeNamesFree(s: State, id: int, roomId: int)
    requires IsForest(s.containers)
  {
    forall x, y :: x in s.containers && y in s.containers && Below(s, x, id) && !Below(s, y, id) && s.containers[y].roomId == roomId
      ==> ScopeKey(s.containers[x].name) != ScopeKey(s.containers[y].name)
  }

  ghost predicate MoveMeets(s: State, id: int)
    requires IsForest(s.containers)
  {
    forall x :: Below(s, x, id) <==> WalkMeets(s.containers, x, id)
  }

  lemma BelowIsMeets(s: State, id: int)
    requires IsForest(s.containers)
    ensures MoveMeets(s, id)
  {
    forall x ensures Below(s, x, id) <==> WalkMeets(s.containers, x, id) {
      MeetsIsReaches(s.containers, x, id);
    }
  }

  lemma MovedNamesFree(s: State, id: int, roomId: int, parent: Option<int>)
    requires Sound(s) && id in s.containers
    ensures ContainerNamesUnique(MovedRows(s.containers, id, roomId, parent)) <==> SubtreeNamesFree(s, id, roomId)
  {
    hide RoomsSound, ItemsSound, ContainerRowsSound, WalkMeets, Reaches;
    var cs, next := s.containers, MovedRows(s.containers, id, roomId, parent);
    BelowIsMeets(s, id);
    if ContainerNamesUnique(next) {
      forall x, y | x in cs && y in cs && Below(s, x, id) && !Below(s, y, id) && cs[y].roomId == roomId
        ensures ScopeKey(cs[x].name) != ScopeKey(cs[y].name)
      {
        assert WalkMeets(cs, x, id) && !WalkMeets(cs, y, id);
        assert SameRoomAndName(next[x], next[y]) <==> ScopeKey(cs[x].name) == ScopeKey(cs[y].name);
      }
    }
    if SubtreeNamesFree(s, id, roomId) {
      forall x, y | x in next && y in next && SameRoomAndName(next[x], next[y]) ensures x == y {
        SubtreeOneRoom(s, id, x);
        SubtreeOneRoom(s, id, y);
        assert Below(s, x, id) <==> WalkMeets(cs, x, id);
        assert Below(s, y, id) <==> WalkMeets(cs, y, id);
        if WalkMeets(cs, x, id) <==> WalkMeets(cs, y, id) {
          assert SameRoomAndName(cs[x], cs[y]);
        }
      }
    }
  }

  lemma SubtreeOneRoom(s: State, id: int, x: int)
    requires Sound(s) && id in s.containers && x in s.containers
    ensures WalkMeets(s.containers, x, id) ==> s.containers[x].roomId == s.containers[id].roomId
  {
    MeetsIsReaches(s.containers, x, id);
    if WalkMeets(s.containers, x, id) {
      OneRoomUpwards(s.containers, x, id);
    }
  }

  /** The row of a container after a move: the moved one hangs from the new parent, all below it change room. */
  ghost function RowMoved(s: State, id: int, roomId: int, parent: Option<int>, x: int): Container
    requires IsForest(s.containers) && x in s.containers
  {
    var c := s.containers[x];
    Container(c.id, if Below(s, x, id) then roomId else c.roomId, if x == id then parent else c.parent, c.name, c.description)
  }

  lemma SelfReached(s: State, id: int)
    requires IsForest(s.containers)
    ensures Reaches(ParentLinks(s.containers), id, id)
  {
  }

  lemma MovedRowsAre(s: State, id: int, roomId: int, parent: Option<int>)
    requires IsForest(s.containers)
    ensures var next := MovedRows(s.containers, id, roomId, parent);
      next.Keys == s.containers.Keys && forall x :: x in s.containers ==> next[x] == RowMoved(s, id, roomId, parent, x)
  {
    hide WalkMeets, Reaches, IsForest;
    BelowIsMeets(s, id);
    MeetsIsReaches(s.containers, id, id);
    SelfReached(s, id);
  }

  lemma MoveContainerExact(s: State, id: int, destination: Location)
    requires Sound(s)
    ensures var (t, r) := MoveContainer(s, id, destination);
      var there := ValidLocation(destination) && LocationExists(s, destination);
      var parent := if destination.kind.RoomKind? then None else Some(destination.id);
      var tree := Acyclic(Rehung(ParentLinks(s.containers), id, parent));
      var refusal :=
        if !ValidLocation(destination) then Validation
        else if id !in s.containers || !there then NotFound
        else if !tree then Cycle
        else Conflict;
      && (r.Ok? <==> there && id in s.containers && tree && SubtreeNamesFree(s, id, DestinationRoom(s, destination)))
      && (r.Ok? ==>
        && t == s.(containers := t.containers, log := s.log + [ContainerMoved(id, Origin(s.containers[id]), destination)])
        && t.containers.Keys == s.containers.Keys
        && (forall x :: x in s.containers ==> t.containers[x] == RowMoved(s, id, DestinationRoom(s, destination), parent, x)))
      && (r.Err? ==> t == s && r.error == refusal)
  {
    hide RoomsSound, ContainerRowsSound, ItemsSound, ParentsSound, IsForest, ContainerNamesUnique, SubtreeNamesFree;
    hide WalkMeets, Acyclic, Rehung, ParentLinks, MovedRows, RowMoved, LocationExists, Origin;
    var parent := DestinationParent(destination);
    CycleGuardExact(s.containers, id, parent);
    if LocationExists(s, destination) && ValidLocation(destination) && id in s.containers {
      MovedNamesFree(s, id, DestinationRoom(s, destination), parent);
      MovedRowsAre(s, id, DestinationRoom(s, destination), parent);
    }
  }

  /** Nothing hangs from the container or lies in it. */
  predicate ContainerEmpty(s: State, id: int) {
    && (forall x :: x in s.containers ==> s.containers[x].parent != Some(id))
    && (forall x :: x in s.items ==> s.items[x].location != Location(ContainerKind, id))
  }

  lemma DeleteContainerExact(s: State, id: int)
    ensures var (t, r) := DeleteContainer(s, id);
      && (r.Ok? <==> id in s.containers && ContainerEmpty(s, id))
      && (r.Ok? ==> t == s.(containers := s.containers - {id}, log := s.log + [ContainerDeleted(s.containers[id])]))
      && (r.Err? ==> t == s && r.error == if id in s.containers then Conflict else NotFound)
  {
  }

  // ---- Items ------------------------------------------------------------------------------------

  /** The item as it is asked for, before its labels are put in order. */
  function AskedItem(item: Item): Item {
    Item(item.id, Trim(item.name), Trim(item.description), item.quantity, Trim(item.notes),
      TrimAll(item.tags), TrimAll(item.aliases), item.location)
  }

  function KeptItem(id: int, item: Item): Item {
    Item(id, Trim(item.name), Trim(item.description), item.quantity, Trim(item.notes),
      StoredLabels(TrimAll(item.tags)), StoredLabels(TrimAll(item.aliases)), item.location)
  }

  lemma CreateItemExact(s: State, item: Item)
    requires Sound(s)
    ensures var (t, r) := CreateItem(s, item);
      var row, valid := KeptItem(s.nextItem, item), ValidItem(AskedItem(item));
      var refusal := if !valid then Validation else if !LocationExists(s, item.location) then NotFound else Conflict;
      && (r.Ok? <==> valid && LocationExists(s, item.location) && ItemNameFree(s, row.id, item.location, row.name))
      && (r.Ok? ==> r.value == row && t == s.(
        items := s.items[row.id := row], nextItem := s.nextItem + 1, log := s.log + [ItemCreated(row)]))
      && (r.Err? ==> t == s && r.error == refusal)
  {
    hide Sound, ItemNamesUnique, ItemNameFree, Trim, TrimAll, ValidItem, StoredLabels, LocationExists;
    ItemFreeIsUnique(s, KeptItem(s.nextItem, item));
  }

  lemma UpdateItemExact(s: State, item: Item)
    requires Sound(s)
    ensures var (t, r) := UpdateItem(s, item);
      var row, valid := KeptItem(item.id, item), ValidItem(AskedItem(item));
      var there := LocationExists(s, item.location) && item.id in s.items;
      var refusal := if !valid then Validation else if !there then NotFound else Conflict;
      && (r.Ok? <==> valid && there && ItemNameFree(s, row.id, item.location, row.name))
      && (r.Ok? ==> r.value == row && t == s.(items := s.items[row.id := row], log := s.log + [ItemUpdated(row)]))
      && (r.Err? ==> t == s && r.error == refusal)
  {
    hide Sound, ItemNamesUnique, ItemNameFree, Trim, TrimAll, ValidItem, StoredLabels, LocationExists;
    ItemFreeIsUnique(s, KeptItem(item.id, item));
  }

  /** Everything about the item stays but its place. */
  lemma MoveItemExact(s: State, id: int, destination: Location)
    requires Sound(s)
    ensures var (t, r) := MoveItem(s, id, destination);
      var there := ValidLocation(destination) && LocationExists(s, destination);
      var refusal := if !ValidLocation(destination) then Validation else if !there || id !in s.items then NotFound else Conflict;
      && (r.Ok? <==> there && id in s.items && ItemNameFree(s, id, destination, s.items[id].name))
      && (r.Ok? ==> t == s.(
        items := s.items[id := s.items[id].(location := destination)],
        log := s.log + [ItemMoved(id, s.items[id].location, destination)]))
      && (r.Err? ==> t == s && r.error == refusal)
  {
    hide RoomsSound, ContainersSound, ItemNamesUnique, ItemNameFree, ItemAtRest, LocationExists, ValidLocation;
    if id in s.items {
      ItemFreeIsUnique(s, s.items[id].(location := destination));
    }
  }

  /** Moving back to the origin the event recorded is legal right after the move, and restores the items. */
  lemma MoveItemUndone(s: State, id: int, destination: Location)
    requires Sound(s) && MoveItem(s, id, destination).1.Ok?
    ensures var t := MoveItem(s, id, destination).0;
      && |t.log| == |s.log| + 1
      && var event := t.log[|s.log|];
      && event.ItemMoved? && event.itemId == id && event.destination == destination
      && var (u, r) := MoveItem(t, id, event.origin);
      && r.Ok? && u.rooms == s.rooms && u.containers == s.containers && u.items == s.items
  {
    hide Sound, MoveItem, ItemNameFree, LocationExists, ValidLocation;
    var t := MoveItem(s, id, destination).0;
    MoveItemExact(s, id, destination);
    MoveItemSound(s, id, destination);
    MoveItemExact(t, id, s.items[id].location);
    ItemPlaced(s, t, id);
    assert t.items[id].(location := s.items[id].location) == s.items[id];
    assert t.items[id := s.items[id]] == s.items;
  }

  /** The place an item comes from is there, and its name is free in it once it is gone. */
  lemma ItemPlaced(s: State, t: State, id: int)
    requires Sound(s) && id in s.items && t.rooms == s.rooms && t.containers == s.containers
    requires exists place :: t.items == s.items[id := s.items[id].(location := place)]
    ensures ValidLocation(s.items[id].location) && LocationExists(t, s.items[id].location)
    ensures ItemNameFree(t, id, s.items[id].location, s.items[id].name)
  {
    hide RoomsSound, ContainersSound, StoredLabels;
    assert ItemAtRest(s.items[id]);
    forall x | x in t.items && x != id && t.items[x].location == s.items[id].location
      ensures ScopeKey(t.items[x].name) != ScopeKey(s.items[id].name)
    {
      assert t.items[x] == s.items[x];
      assert !SameSlot(s.items[x], s.items[id]);
    }
  }

  lemma DeleteItemExact(s: State, id: int)
    ensures var (t, r) := DeleteItem(s, id);
      && (r.Ok? <==> id in s.items)
      && (r.Ok? ==> t == s.(items := s.items - {id}, log := s.log + [ItemDeleted(s.items[id])]))
      && (r.Err? ==> t == s && r.error == NotFound)
  {
  }

  /** What a deletion recorded is enough to put back what it took. */
  lemma DeletionsUndone(s: State, op: Op)
    requires Sound(s) && Step(s, op).1.None? && (op.OpDeleteRoom? || op.OpDeleteContainer? || op.OpDeleteItem?)
    ensures var t := Step(s, op).0;
      && |t.log| == |s.log| + 1
      && match t.log[|s.log|] {
        case RoomDeleted(room) => t.rooms[room.id := room] == s.rooms && t.containers == s.containers && t.items == s.items
        case ContainerDeleted(c) => t.containers[c.id := c] == s.containers && t.rooms == s.rooms && t.items == s.items
        case ItemDeleted(item) => t.items[item.id := item] == s.items && t.rooms == s.rooms && t.containers == s.containers
        case _ => false
      }
  {
    hide Sound, RoomHoldsSomething, ContainerHoldsSomething;
    SoundRows(s);
  }

  // ---- What is stored is within limits -------------------------------------------------------

  /** A trimmed text of at least one character and no more than so many. */
  predicate NameWithin(name: string, max: int) {
    Trimmed(name) && 1 <= |name| <= max
  }

  predicate TextWithin(text: string, max: int) {
    Trimmed(text) && |text| <= max
  }

  /** At most twenty labels, none of them empty or too long, no two the same ignoring ASCII case. */
  predicate LabelsWithin(labels: seq<string>, max: int) {
    && |labels| <= 20
    && (forall i :: 0 <= i < |labels| ==> NameWithin(labels[i], max))
    && (forall i, j :: 0 <= i < j < |labels| ==> ScopeKey(labels[i]) != ScopeKey(labels[j]))
  }

  predicate RoomWithin(room: Room) {
    NameWithin(room.name, 120) && TextWithin(room.description, 2000)
  }

  predicate ContainerWithin(c: Container) {
    NameWithin(c.name, 120) && TextWithin(c.description, 2000)
  }

  predicate ItemWithin(item: Item) {
    && NameWithin(item.name, 120) && TextWithin(item.description, 2000) && TextWithin(item.notes, 4000)
    && 0 <= item.quantity <= 1_000_000
    && LabelsWithin(item.tags, 40) && LabelsWithin(item.aliases, 120)
  }

  lemma NameWithinExactly(name: string, max: int)
    requires Trim(name) == name
    ensures NameWithin(name, max) <==> Trim(name) != "" && ValidText(name, max)
    ensures TextWithin(name, max) <==> ValidText(name, max)
  {
    TrimIdentity(name);
  }

  lemma LabelsWithinExactly(labels: seq<string>, max: int)
    requires TrimAll(labels) == labels
    ensures ValidLabels(labels, max) <==> LabelsWithin(labels, max)
  {
    hide ScopeKey, ValidText, NameWithin;
    forall i | 0 <= i < |labels|
      ensures NameWithin(labels[i], max) <==> Trim(labels[i]) != "" && ValidText(labels[i], max)
    {
      assert TrimAll(labels)[i] == Trim(labels[i]);
      NameWithinExactly(labels[i], max);
    }
    if ValidLabels(labels, max) {
      CountsDistinct(labels);
    }
    if LabelsWithin(labels, max) {
      assert Distinct(labels);
      forall tag | tag in labels ensures multiset(labels)[tag] == 1 {
        DistinctCounts(labels, tag);
      }
    }
  }

  lemma RoomValidExactly(room: Room)
    requires Trim(room.name) == room.name && Trim(room.description) == room.description
    ensures ValidRoom(room) <==> RoomWithin(room)
  {
    NameWithinExactly(room.name, 120);
    NameWithinExactly(room.description, 2000);
  }

  lemma ContainerValidExactly(c: Container)
    requires Trim(c.name) == c.name && Trim(c.description) == c.description
    ensures ValidContainer(c) <==>
      ContainerWithin(c) && c.roomId > 0 && (c.parent.Some? ==> c.parent.value > 0 && (c.id == 0 || c.parent.value != c.id))
  {
    NameWithinExactly(c.name, 120);
    NameWithinExactly(c.description, 2000);
  }

  lemma ItemValidExactly(item: Item)
    requires AskedItem(item) == item
    ensures ValidItem(item) <==> ItemWithin(item) && !item.location.kind.OtherKind? && item.location.id > 0
  {
    hide ValidLabels, LabelsWithin, NameWithin, TextWithin, ValidText;
    NameWithinExactly(item.name, 120);
    NameWithinExactly(item.description, 2000);
    NameWithinExactly(item.notes, 4000);
    LabelsWithinExactly(item.tags, 40);
    LabelsWithinExactly(item.aliases, 120);
  }

  lemma ItemRowWithin(item: Item)
    requires ItemAtRest(item)
    ensures ItemWithin(item)
  {
    hide StoredLabels;
    assert AskedItem(item) == item;
    ItemValidExactly(item);
  }

  /** Whatever calls were made, every row that is stored is within the limits. */
  lemma ReachableWithinLimits(s: State)
    requires Reachable(s)
    ensures forall id :: id in s.rooms ==> RoomWithin(s.rooms[id])
    ensures forall id :: id in s.containers ==> ContainerWithin(s.containers[id])
    ensures forall id :: id in s.items ==> ItemWithin(s.items[id])
  {
    ReachableSound(s);
    forall id | id in s.rooms ensures RoomWithin(s.rooms[id]) {
      assert RoomAtRest(s.rooms[id]);
      RoomValidExactly(s.rooms[id]);
    }
    forall id | id in s.containers ensures ContainerWithin(s.containers[id]) {
      assert ContainerAtRest(s.containers[id]);
      ContainerValidExactly(s.containers[id]);
    }
    forall id | id in s.items ensures ItemWithin(s.items[id]) {
      assert ItemAtRest(s.items[id]);
      ItemRowWithin(s.items[id]);
    }
  }
}
