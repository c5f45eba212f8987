/** Containers and items: each step of an import puts its entry's facts under its name. */
module BackupSteps {
  import opened Text
  import opened Inventory
  import opened StoreModel
  import opened StoreInvariant
  import opened StoreTree
  import opened BackupDocument
  import opened BackupNames
  import opened BackupImport

  lemma FoundRoom(s: State, name: string)
    requires Sound(s) && RoomName(name) in World(s)
    ensures World(s)[RoomName(name)].RoomRow?
    ensures var room := World(s)[RoomName(name)].room;
      room.id in s.rooms && s.rooms[room.id] == room && RoomKey(s.rooms, room.id) == name
  {
    assert HasRow(s, World(s)[RoomName(name)]);
  }

  lemma FoundContainer(s: State, key: ContainerKey)
    requires Sound(s) && ContainerName(key) in World(s)
    ensures World(s)[ContainerName(key)].ContainerRow?
    ensures var c := World(s)[ContainerName(key)].container;
      c.id in s.containers && s.containers[c.id] == c && RoomKey(s.rooms, c.roomId) == key.room && ScopeKey(c.name) == key.name
  {
    assert HasRow(s, World(s)[ContainerName(key)]);
  }

  // ---- Containers --------------------------------------------------------------------

  lemma ContainerWrites(s: State, t: State, row: Container)
    requires RowsKnowIds(s) && ParentsSound(s.containers)
    requires t.containers == s.containers[row.id := row] && t.rooms == s.rooms && t.items == s.items
    requires forall id :: id in s.items ==> LocationExists(s, s.items[id].location)
    requires row.id in s.containers ==>
      s.containers[row.id].roomId == row.roomId && ScopeKey(s.containers[row.id].name) == ScopeKey(row.name)
    ensures Writes(s, t, ContainerRow(row))
    ensures forall r :: HasRow(s, r) ==> FactsOf(t.containers, r) == FactsOf(s.containers, r)
  {
    forall r | HasRow(s, r) && r.ItemRow? ensures KeyOfRow(t, r) == KeyOfRow(s, r) {
      assert LocationExists(s, r.item.location);
    }
  }

  lemma CreateContainerSucceeds(s: State, target: Container)
    requires Sound(s) && NormalContainer(target) == target && ValidContainer(target)
    requires target.roomId in s.rooms && ParentProblem(s.containers, target.parent, target.roomId).None?
    requires KeyOfContainer(s.rooms, target) !in World(s)
    ensures CreateContainer(s, target).1.Ok?
  {
    forall b | b in s.containers ensures !SameRoomAndName(s.containers[b], target) {
      assert HasRow(s, ContainerRow(s.containers[b]));
    }
  }

  lemma UpdateContainerSucceeds(s: State, row: Container)
    requires Sound(s) && NormalContainer(row) == row && ValidContainer(row)
    requires row.id in s.containers && s.containers[row.id].roomId == row.roomId
    requires ScopeKey(s.containers[row.id].name) == ScopeKey(row.name)
    requires ParentProblem(s.containers, row.parent, row.roomId).None?
    requires row.parent.Some? ==> !WalkMeets(s.containers, row.parent.value, row.id)
    ensures UpdateContainer(s, row).1.Ok?
  {
  }

  lemma CreatedContainerIs(s: State, target: Container)
    requires NormalContainer(target) == target && CreateContainer(s, target).1.Ok? && s.nextContainer !in s.containers
    ensures var t, row := CreateContainer(s, target).0, target.(id := s.nextContainer);
      && t.containers == s.containers[row.id := row] && t.rooms == s.rooms && t.items == s.items
      && KeyOfContainer(t.rooms, row) == KeyOfContainer(s.rooms, target)
      && FactsOf(t.containers, ContainerRow(row)) == FactsOf(s.containers, ContainerRow(target))
  {
  }

  lemma CreatedContainerPuts(s: State, target: Container, facts: Facts)
    requires Sound(s) && NormalContainer(target) == target && ValidContainer(target)
    requires target.roomId in s.rooms && ParentProblem(s.containers, target.parent, target.roomId).None?
    requires KeyOfContainer(s.rooms, target) !in World(s)
    requires facts == FactsOf(s.containers, ContainerRow(target))
    ensures CreateContainer(s, target).1.Ok?
    ensures Puts(s, CreateContainer(s, target).0, Created, KeyOfContainer(s.rooms, target), facts, true)
  {
    var t, row := CreateContainer(s, target).0, target.(id := s.nextContainer);
    CreateContainerSucceeds(s, target);
    CreateContainerSound(s, target);
    SoundRows(s);
    CreatedContainerIs(s, target);
    ContainerWrites(s, t, row);
    FateOfNew(s, KeyOfContainer(s.rooms, target), facts, true);
    WrittenPuts(s, t, ContainerRow(row), Created, facts, true);
  }

  lemma UpdatedContainerIs(s: State, row: Container)
    requires NormalContainer(row) == row && UpdateContainer(s, row).1.Ok?
    ensures var t := UpdateContainer(s, row).0;
      t.containers == s.containers[row.id := row] && t.rooms == s.rooms && t.items == s.items
  {
    hide WalkMeets, ContainerNamesUnique, ValidContainer, ParentProblem;
  }

  lemma UpdatedContainerPuts(s: State, row: Container, facts: Facts)
    requires Sound(s) && NormalContainer(row) == row && ValidContainer(row)
    requires row.id in s.containers && s.containers[row.id].roomId == row.roomId
    requires ScopeKey(s.containers[row.id].name) == ScopeKey(row.name)
    requires ParentProblem(s.containers, row.parent, row.roomId).None?
    requires row.parent.Some? ==> row.parent.value != row.id && !WalkMeets(s.containers, row.parent.value, row.id)
    requires facts == FactsOf(s.containers, ContainerRow(row)) != FactsOf(s.containers, ContainerRow(s.containers[row.id]))
    ensures UpdateContainer(s, row).1.Ok?
    ensures Puts(s, UpdateContainer(s, row).0, Updated, KeyOfContainer(s.rooms, row), facts, true)
  {
    hide Sound, View, UpdateContainer, NormalContainer, ValidContainer, WalkMeets, Puts, Writes, FateOf, LocationExists;
    var t, was := UpdateContainer(s, row).0, s.containers[row.id];
    UpdateContainerSucceeds(s, row);
    UpdateContainerSound(s, row);
    SoundRows(s);
    SoundForest(s);
    UpdatedContainerIs(s, row);
    ContainerWrites(s, t, row);
    FateOfOld(s, ContainerRow(was), facts, true);
    WrittenPuts(s, t, ContainerRow(row), Updated, facts, true);
  }

  /** The ids the names of an entry stand for. */
  ghost predicate NamesKnown(s: State, e: DocContainer)
    requires Sound(s)
  {
    && RoomName(ScopeKey(e.room)) in World(s)
    && (e.parent != "" ==> ContainerName(ParentKey(e)) in World(s) && ScopeKey(e.parent) != ScopeKey(e.name))
  }

  predicate CleanContainer(e: DocContainer) {
    Trim(e.name) == e.name && ValidName(e.name) && ValidText(e.description, MAX_DESCRIPTION)
  }

  ghost function RoomIdOf(s: State, e: DocContainer): int
    requires Sound(s) && NamesKnown(s, e)
  {
    World(s)[RoomName(ScopeKey(e.room))].room.id
  }

  ghost function ParentIdOf(s: State, e: DocContainer): Option<int>
    requires Sound(s) && NamesKnown(s, e)
  {
    if e.parent == "" then None else Some(World(s)[ContainerName(ParentKey(e))].container.id)
  }

  /** The store would have to hang a container below itself. */
  ghost predicate Circular(s: State, e: DocContainer)
    requires Sound(s) && NamesKnown(s, e)
  {
    && e.parent != "" && ContainerName(EntryKey(e)) in World(s)
    && WalkMeets(s.containers, ParentIdOf(s, e).value, World(s)[ContainerName(EntryKey(e))].container.id)
  }

  lemma TargetFits(s: State, e: DocContainer)
    requires Sound(s) && NamesKnown(s, e) && CleanContainer(e)
    ensures var target := ContainerTarget(e, RoomIdOf(s, e), ParentIdOf(s, e));
      && NormalContainer(target) == target && ValidContainer(target)
      && target.roomId in s.rooms && ParentProblem(s.containers, target.parent, target.roomId).None?
      && KeyOfContainer(s.rooms, target) == ContainerName(EntryKey(e))
      && FactsOf(s.containers, ContainerRow(target)) == FactsFrom(ContainerEntry(e))
  {
    var target := ContainerTarget(e, RoomIdOf(s, e), ParentIdOf(s, e));
    TrimTwice(e.description);
    FoundRoom(s, ScopeKey(e.room));
    if e.parent != "" {
      FoundContainer(s, ParentKey(e));
      RoomKeyApart(s, target.roomId, s.containers[target.parent.value].roomId);
    }
  }

  /** A row matches an entry when it already says what the entry says. */
  lemma MatchIsSameFacts(s: State, current: Container, target: Container)
    requires Sound(s) && current.id in s.containers && s.containers[current.id] == current
    requires target.roomId in s.rooms && ParentProblem(s.containers, target.parent, target.roomId).None?
    requires KeyOfContainer(s.rooms, current) == KeyOfContainer(s.rooms, target)
    ensures current.roomId == target.roomId
    ensures ContainersMatch(current, target) <==>
      FactsOf(s.containers, ContainerRow(current)) == FactsOf(s.containers, ContainerRow(target))
  {
    RoomKeyApart(s, current.roomId, target.roomId);
    if current.parent.Some? && target.parent.Some? {
      ContainerKeyApart(s, current.parent.value, target.parent.value);
    }
  }

  lemma ContainerStepPuts(s: State, e: DocContainer)
    requires Sound(s) && NamesKnown(s, e) && CleanContainer(e) && !Circular(s, e)
    ensures ContainerStep(s, e).1.Ok?
    ensures Puts(s, ContainerStep(s, e).0, ContainerStep(s, e).1.value, KeyOf(ContainerEntry(e)), FactsFrom(ContainerEntry(e)), true)
  {
    var key, facts := ContainerName(EntryKey(e)), FactsFrom(ContainerEntry(e));
    var target := ContainerTarget(e, RoomIdOf(s, e), ParentIdOf(s, e));
    TargetFits(s, e);
    if key !in World(s) {
      CreatedContainerPuts(s, target, facts);
    } else {
      KnownContainerPuts(s, e, target);
    }
  }

  lemma KnownContainerPuts(s: State, e: DocContainer, target: Container)
    requires Sound(s) && NamesKnown(s, e) && CleanContainer(e) && !Circular(s, e)
    requires target == ContainerTarget(e, RoomIdOf(s, e), ParentIdOf(s, e))
    requires ContainerName(EntryKey(e)) in World(s)
    ensures ContainerStep(s, e).1.Ok?
    ensures Puts(s, ContainerStep(s, e).0, ContainerStep(s, e).1.value, KeyOf(ContainerEntry(e)), FactsFrom(ContainerEntry(e)), true)
  {
    var key, facts := ContainerName(EntryKey(e)), FactsFrom(ContainerEntry(e));
    TargetFits(s, e);
    FoundContainer(s, EntryKey(e));
    var current := World(s)[key].container;
    MatchIsSameFacts(s, current, target);
    if ContainersMatch(current, target) {
      ViewKnowsWorld(s, key);
      KeptPuts(s, key, facts);
    } else {
      var row := target.(id := current.id);
      if e.parent != "" {
        FoundContainer(s, ParentKey(e));
      }
      UpdatedContainerPuts(s, row, facts);
    }
  }

  /** The step fails on a circle, and only with ErrCycle. */
  lemma CircularFails(s: State, e: DocContainer)
    requires Sound(s) && NamesKnown(s, e) && CleanContainer(e) && Circular(s, e)
    ensures ContainerStep(s, e) == (s, Err(Cycle))
  {
    var key := ContainerName(EntryKey(e));
    var target := ContainerTarget(e, RoomIdOf(s, e), ParentIdOf(s, e));
    TargetFits(s, e);
    FoundContainer(s, EntryKey(e));
    FoundContainer(s, ParentKey(e));
    var current := World(s)[key].container;
    MatchIsSameFacts(s, current, target);
    CircularNoMatch(s, current, target);
  }

  lemma CircularNoMatch(s: State, current: Container, target: Container)
    requires Sound(s) && current.id in s.containers && s.containers[current.id] == current
    requires target.parent.Some? && WalkMeets(s.containers, target.parent.value, current.id)
    ensures current.parent != target.parent
  {
    if current.parent == target.parent {
      ParentOutsideSubtree(s.containers, current.id);
    }
  }

  // ---- Items -----------------------------------------------------------------------------

  lemma ItemWrites(s: State, t: State, row: Item)
    requires RowsKnowIds(s)
    requires t.items == s.items[row.id := row] && t.rooms == s.rooms && t.containers == s.containers
    requires row.id in s.items ==> KeyOfItem(s.rooms, s.containers, s.items[row.id]) == KeyOfItem(s.rooms, s.containers, row)
    ensures Writes(s, t, ItemRow(row))
  {
  }

  lemma SameSlotSameKey(s: State, a: Item, b: Item)
    requires SameSlot(a, b)
    ensures KeyOfItem(s.rooms, s.containers, a) == KeyOfItem(s.rooms, s.containers, b)
  {
  }

  lemma CreateItemSucceeds(s: State, target: Item)
    requires Sound(s) && NormalItem(target) == target && ValidItem(target)
    requires LocationExists(s, target.location)
    requires KeyOfItem(s.rooms, s.containers, target) !in World(s)
    ensures CreateItem(s, target).1.Ok?
  {
    hide ItemAtRest, ValidItem, NormalItem, StoredLabels, LocationExists, RoomsSound, ContainersSound, KeyOfItem;
    forall b | b in s.items ensures !SameSlot(s.items[b], target) && !SameSlot(target, s.items[b]) {
      assert HasRow(s, ItemRow(s.items[b]));
      if SameSlot(s.items[b], target) {
        SameSlotSameKey(s, s.items[b], target);
      }
    }
  }

  lemma UpdateItemSucceeds(s: State, row: Item)
    requires Sound(s) && NormalItem(row) == row && ValidItem(row)
    requires LocationExists(s, row.location) && row.id in s.items
    requires KeyOfItem(s.rooms, s.containers, s.items[row.id]) == KeyOfItem(s.rooms, s.containers, row)
    ensures UpdateItem(s, row).1.Ok?
  {
    hide ItemAtRest, StoredLabels, NormalItem, RoomsSound, ContainersSound, PlaceKey, ValidItem;
    PlaceKeyApart(s, s.items[row.id].location, row.location);
  }

  lemma CreatedItemPuts(s: State, target: Item, facts: Facts, orderly: bool)
    requires Sound(s) && NormalItem(target) == target && ValidItem(target)
    requires LocationExists(s, target.location)
    requires KeyOfItem(s.rooms, s.containers, target) !in World(s)
    requires facts == FactsOf(s.containers, ItemRow(StoredItem(target)))
    ensures CreateItem(s, target).1.Ok?
    ensures Puts(s, CreateItem(s, target).0, Created, KeyOfItem(s.rooms, s.containers, target), facts, orderly)
  {
    hide Sound, ValidItem, NormalItem, StoredLabels, LocationExists, Puts, ItemNamesUnique;
    var (t, r) := CreateItem(s, target);
    CreateItemSucceeds(s, target);
    CreateItemSound(s, target);
    CreateItemWrites(s, target);
    SoundRows(s);
    IdsAreNew(s);
    ItemWrites(s, t, r.value);
    FateOfNew(s, KeyOfItem(s.rooms, s.containers, target), facts, orderly);
    WrittenPuts(s, t, ItemRow(r.value), Created, facts, orderly);
  }

  lemma UpdatedItemPuts(s: State, row: Item, facts: Facts, orderly: bool)
    requires Sound(s) && NormalItem(row) == row && ValidItem(row)
    requires LocationExists(s, row.location) && row.id in s.items
    requires KeyOfItem(s.rooms, s.containers, s.items[row.id]) == KeyOfItem(s.rooms, s.containers, row)
    requires facts == FactsOf(s.containers, ItemRow(StoredItem(row)))
    requires facts != FactsOf(s.containers, ItemRow(s.items[row.id])) || !orderly
    ensures UpdateItem(s, row).1.Ok?
    ensures Puts(s, UpdateItem(s, row).0, Updated, KeyOfItem(s.rooms, s.containers, row), facts, orderly)
  {
    hide Sound, ValidItem, NormalItem, StoredLabels, LocationExists, Puts, ItemNamesUnique;
    var (t, r) := UpdateItem(s, row);
    UpdateItemSucceeds(s, row);
    UpdateItemSound(s, row);
    UpdateItemWrites(s, row);
    SoundRows(s);
    ItemWrites(s, t, r.value);
    FateOfOld(s, ItemRow(s.items[row.id]), facts, orderly);
    WrittenPuts(s, t, ItemRow(r.value), Updated, facts, orderly);
  }

  predicate CleanItem(e: DocItem) {
    && ValidItem(ItemTarget(e, Location(e.location.kind, 1)))
    && (e.location.kind.RoomKind? ==> e.location.container == "")
  }

  ghost predicate PlaceNamed(s: State, place: DocLocation)
    requires Sound(s)
  {
    match place.kind
    case RoomKind => RoomName(ScopeKey(place.room)) in World(s)
    case ContainerKind => ContainerName(ContainerKey(ScopeKey(place.room), ScopeKey(place.container))) in World(s)
    case OtherKind(_) => false
  }

  lemma ResolvedPlace(s: State, place: DocLocation)
    requires Sound(s) && PlaceNamed(s, place)
    requires place.kind.RoomKind? ==> place.container == ""
    ensures Resolve(s, place).Ok?
    ensures var l := Resolve(s, place).value;
      && LocationExists(s, l) && ValidLocation(l) && l.kind == place.kind
      && PlaceKey(s.rooms, s.containers, l) == (ScopeKey(place.room), ScopeKey(place.container))
  {
    if place.kind.RoomKind? {
      FoundRoom(s, ScopeKey(place.room));
      ScopeKeyEmpty(place.container);
    } else {
      FoundContainer(s, ContainerKey(ScopeKey(place.room), ScopeKey(place.container)));
    }
  }

  lemma ItemTargetFits(e: DocItem, place: Location)
    requires CleanItem(e) && ValidLocation(place)
    ensures var target := ItemTarget(e, place);
      && NormalItem(target) == target && ValidItem(target)
      && (forall cs :: FactsOf(cs, ItemRow(StoredItem(target))) == FactsFrom(ItemEntry(e)))
      && (Orderly(ItemEntry(e)) <==> StoredItem(target) == target)
  {
    TrimTwice(e.name);
    TrimTwice(e.description);
    TrimTwice(e.notes);
    TrimAllTwice(e.tags);
    TrimAllTwice(e.aliases);
  }

  /** A stored row matches a target when it says the same and the target is in order. */
  lemma ItemMatchIsSameFacts(s: State, current: Item, target: Item)
    requires Sound(s) && LocationExists(s, current.location) && LocationExists(s, target.location)
    requires StoredItem(current) == current
    requires KeyOfItem(s.rooms, s.containers, current) == KeyOfItem(s.rooms, s.containers, target)
    ensures ItemsMatch(current, target) <==>
      (FactsOf(s.containers, ItemRow(current)) == FactsOf(s.containers, ItemRow(StoredItem(target))) && StoredItem(target) == target)
  {
    hide Sound, StoredLabels, PlaceKey, LocationExists;
    PlaceKeyApart(s, current.location, target.location);
  }

  lemma ItemStepPuts(s: State, e: DocItem)
    requires Sound(s) && CleanItem(e) && PlaceNamed(s, e.location)
    ensures ItemStep(s, e).1.Ok?
    ensures Puts(s, ItemStep(s, e).0, ItemStep(s, e).1.value, KeyOf(ItemEntry(e)), FactsFrom(ItemEntry(e)), Orderly(ItemEntry(e)))
  {
    hide RoomsSound, ContainersSound, ItemsSound, Puts, CreateItem, UpdateItem, Orderly;
    ResolvedPlace(s, e.location);
    var place := Resolve(s, e.location).value;
    var target, key, facts := ItemTarget(e, place), KeyOf(ItemEntry(e)), FactsFrom(ItemEntry(e));
    ItemTargetFits(e, place);
    assert KeyOfItem(s.rooms, s.containers, target) == key;
    if key !in World(s) {
      CreatedItemPuts(s, target, facts, Orderly(ItemEntry(e)));
    } else {
      KnownItemPuts(s, e, target);
    }
  }

  lemma FoundItem(s: State, key: ItemKey)
    requires Sound(s) && ItemName(key) in World(s)
    ensures World(s)[ItemName(key)].ItemRow?
    ensures var i := World(s)[ItemName(key)].item;
      && i.id in s.items && s.items[i.id] == i && LocationExists(s, i.location) && StoredItem(i) == i
      && KeyOfItem(s.rooms, s.containers, i) == ItemName(key)
  {
    assert HasRow(s, World(s)[ItemName(key)]);
    assert ItemAtRest(World(s)[ItemName(key)].item);
  }

  lemma KnownItemPuts(s: State, e: DocItem, target: Item)
    requires Sound(s) && CleanItem(e) && Resolve(s, e.location).Ok?
    requires target == ItemTarget(e, Resolve(s, e.location).value) && LocationExists(s, target.location)
    requires ValidLocation(target.location)
    requires KeyOfItem(s.rooms, s.containers, target) == KeyOf(ItemEntry(e)) && KeyOf(ItemEntry(e)) in World(s)
    ensures ItemStep(s, e).1.Ok?
    ensures Puts(s, ItemStep(s, e).0, ItemStep(s, e).1.value, KeyOf(ItemEntry(e)), FactsFrom(ItemEntry(e)), Orderly(ItemEntry(e)))
  {
    hide RoomsSound, ContainersSound, ItemsSound, Puts, CreateItem, UpdateItem, Orderly;
    var key, facts := KeyOf(ItemEntry(e)), FactsFrom(ItemEntry(e));
    ItemTargetFits(e, target.location);
    FoundItem(s, DocItemKey(e));
    var current := World(s)[key].item;
    ItemMatchIsSameFacts(s, current, target);
    if ItemsMatch(current, target) {
      ViewKnowsWorld(s, key);
      KeptPuts(s, key, facts);
    } else {
      UpdatedItemPuts(s, target.(id := current.id), facts, Orderly(ItemEntry(e)));
    }
  }

  // ---- Names that are taken ----------------------------------------------------------------

  lemma RoomTaken(s: State, target: Room, id: int)
    requires Sound(s) && id in s.rooms && ScopeKey(s.rooms[id].name) == ScopeKey(target.name)
    requires NormalRoom(target) == target && ValidRoom(target)
    ensures CreateRoom(s, target) == (s, Err(Conflict))
  {
    var row := target.(id := s.nextRoom);
    var table := s.rooms[row.id := row];
    assert row.id != id;
    assert ScopeKey(table[row.id].name) == ScopeKey(table[id].name);
  }

  lemma ContainerTaken(s: State, target: Container, id: int)
    requires id in s.containers && s.nextContainer !in s.containers && SameRoomAndName(target, s.containers[id])
    requires NormalContainer(target) == target && ValidContainer(target)
    requires target.roomId in s.rooms && ParentProblem(s.containers, target.parent, target.roomId).None?
    ensures CreateContainer(s, target) == (s, Err(Conflict))
  {
    hide NormalContainer, ValidContainer, ParentProblem;
    var row := target.(id := s.nextContainer);
    var table := s.containers[row.id := row];
    assert SameRoomAndName(table[row.id], table[id]);
  }

  lemma ItemTaken(s: State, target: Item, id: int)
    requires id in s.items && s.nextItem !in s.items && SameSlot(target, s.items[id])
    requires NormalItem(target) == target && ValidItem(target) && LocationExists(s, target.location)
    ensures CreateItem(s, target) == (s, Err(Conflict))
  {
    hide NormalItem, ValidItem, LocationExists, StoredLabels;
    var row := StoredItem(target).(id := s.nextItem);
    var table := s.items[row.id := row];
    assert SameSlot(table[row.id], table[id]);
  }
}
