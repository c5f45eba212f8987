/**
 The steps of an import as they look names up: in maps that are filled once and then
 kept up by hand, under the names of the document. They are the steps of `BackupImport`
 on the entries in the form of the store, until an entry collides.
 */
module BackupApply {
  import opened Text
  import opened Inventory
  import opened StoreModel
  import opened StoreInvariant
  import opened BackupDocument
  import opened BackupNames
  import opened BackupImport
  import opened BackupSteps
  import opened BackupOverlay
  import opened BackupCycles
  import opened BackupStored
  import opened BackupWorld

  type Stepped = (State, Maps, Outcome<Fate>)

  function PutRoom(m: Maps, key: string, written: (State, Outcome<Room>), fate: Fate): Stepped {
    if written.1.Err? then (written.0, m, Err(written.1.error))
    else (written.0, m.(rooms := m.rooms[key := written.1.value]), Ok(fate))
  }

  function PutContainer(m: Maps, key: ContainerKey, written: (State, Outcome<Container>), fate: Fate): Stepped {
    if written.1.Err? then (written.0, m, Err(written.1.error))
    else (written.0, m.(containers := m.containers[key := written.1.value]), Ok(fate))
  }

  function PutItem(m: Maps, key: ItemKey, written: (State, Outcome<Item>), fate: Fate): Stepped {
    if written.1.Err? then (written.0, m, Err(written.1.error))
    else (written.0, m.(items := m.items[key := written.1.value]), Ok(fate))
  }

  function RoomBy(s: State, m: Maps, e: DocRoom): Stepped {
    var target := RoomTarget(e);
    var key := ScopeKey(target.name);
    if key !in m.rooms then PutRoom(m, key, CreateRoom(s, target), Created)
    else
      var current := m.rooms[key];
      if current.name == target.name && current.description == target.description then (s, m, Ok(Unchanged))
      else PutRoom(m, key, UpdateRoom(s, target.(id := current.id)), Updated)
  }

  function ContainerBy(s: State, m: Maps, e: DocContainer): Stepped {
    var room, key := ScopeKey(e.room), EntryKey(e);
    if room !in m.rooms then (s, m, Err(Broken))
    else if e.parent != "" && ParentKey(e) !in m.containers then (s, m, Err(Broken))
    else
      var parent := if e.parent == "" then None else Some(m.containers[ParentKey(e)].id);
      var target := ContainerTarget(e, m.rooms[room].id, parent);
      if key !in m.containers then PutContainer(m, key, CreateContainer(s, target), Created)
      else if ContainersMatch(m.containers[key], target) then (s, m, Ok(Unchanged))
      else PutContainer(m, key, UpdateContainer(s, target.(id := m.containers[key].id)), Updated)
  }

  function ResolveBy(m: Maps, place: DocLocation): Outcome<Location> {
    var room, container := ScopeKey(place.room), ContainerKey(ScopeKey(place.room), ScopeKey(place.container));
    match place.kind
    case RoomKind => if room in m.rooms then Ok(InRoom(m.rooms[room].id)) else Err(Validation)
    case ContainerKind => if container in m.containers then Ok(InContainer(m.containers[container].id)) else Err(Validation)
    case OtherKind(_) => Err(Validation)
  }

  function ItemBy(s: State, m: Maps, e: DocItem): Stepped {
    var place, key := ResolveBy(m, e.location), DocItemKey(e);
    if place.Err? then (s, m, Err(place.error))
    else
      var target := ItemTarget(e, place.value);
      if key !in m.items then PutItem(m, key, CreateItem(s, target), Created)
      else if ItemsMatch(m.items[key], target) then (s, m, Ok(Unchanged))
      else PutItem(m, key, UpdateItem(s, target.(id := m.items[key].id)), Updated)
  }

  function EntryBy(s: State, m: Maps, entry: Entry): Stepped {
    match entry
    case RoomEntry(e) => RoomBy(s, m, e)
    case ContainerEntry(e) => ContainerBy(s, m, e)
    case ItemEntry(e) => ItemBy(s, m, e)
  }

  // ---- Maps that follow the store ---------------------------------------------------------

  predicate Knows(m: Maps, key: NameKey) {
    match key
    case RoomName(k) => k in m.rooms
    case ContainerName(k) => k in m.containers
    case ItemName(k) => k in m.items
  }

  function RowBy(m: Maps, key: NameKey): Row
    requires Knows(m, key)
  {
    match key
    case RoomName(k) => RoomRow(m.rooms[k])
    case ContainerName(k) => ContainerRow(m.containers[k])
    case ItemName(k) => ItemRow(m.items[k])
  }

  /**
   The maps know the names `known`; each finds the row the store keeps under that name in
   its own form, and no two of them mean the same row.
   */
  ghost predicate Follows(m: Maps, known: set<NameKey>, world: map<NameKey, Row>) {
    && (forall key :: Knows(m, key) <==> key in known)
    && (forall key :: key in known ==> StoreKey(key) in world && world[StoreKey(key)] == RowBy(m, key))
    && (forall a, b :: a in known && b in known && StoreKey(a) == StoreKey(b) ==> a == b)
  }

  lemma InStepKnows(m: Maps, world: map<NameKey, Row>, key: NameKey)
    requires InStep(m, world)
    ensures Knows(m, key) <==> key in world
    ensures key in world ==> RowBy(m, key) == world[key]
  {
  }

  /** Maps in step with a store follow it: what it holds is called what the store calls it. */
  lemma InStepFollows(s: State, m: Maps)
    requires Sound(s) && InStep(m, World(s))
    ensures Follows(m, View(s).Keys, World(s))
  {
    hide Sound, StoreKey, View, InStep, Knows, RowBy;
    forall key ensures (key in View(s) <==> key in World(s)) && (Knows(m, key) <==> key in World(s)) {
      ViewKnowsWorld(s, key);
      InStepKnows(m, World(s), key);
    }
    forall key | key in View(s) ensures Rests(key) && World(s)[key] == RowBy(m, key) {
      KnownRests(s, key);
      InStepKnows(m, World(s), key);
    }
  }

  lemma KnownRow(s: State, m: Maps, known: set<NameKey>, key: NameKey)
    requires Sound(s) && Follows(m, known, World(s)) && key in known
    ensures Knows(m, key) && StoreKey(key) in World(s) && World(s)[StoreKey(key)] == RowBy(m, key)
    ensures HasRow(s, RowBy(m, key)) && KeyOfRow(s, RowBy(m, key)) == StoreKey(key)
  {
    hide Sound;
  }

  lemma RoomPutFollows(m: Maps, known: set<NameKey>, world: map<NameKey, Row>, k: string, row: Room)
    requires Follows(m, known, world)
    requires RoomName(k) in known || StoreKey(RoomName(k)) !in world
    ensures Follows(m.(rooms := m.rooms[k := row]), known + {RoomName(k)}, world[StoreKey(RoomName(k)) := RoomRow(row)])
  {
  }

  lemma ContainerPutFollows(m: Maps, known: set<NameKey>, world: map<NameKey, Row>, k: ContainerKey, row: Container)
    requires Follows(m, known, world)
    requires ContainerName(k) in known || StoreKey(ContainerName(k)) !in world
    ensures Follows(m.(containers := m.containers[k := row]), known + {ContainerName(k)},
      world[StoreKey(ContainerName(k)) := ContainerRow(row)])
  {
    hide Trim;
  }

  lemma ItemPutFollows(m: Maps, known: set<NameKey>, world: map<NameKey, Row>, k: ItemKey, row: Item)
    requires Follows(m, known, world)
    requires ItemName(k) in known || StoreKey(ItemName(k)) !in world
    ensures Follows(m.(items := m.items[k := row]), known + {ItemName(k)}, world[StoreKey(ItemName(k)) := ItemRow(row)])
  {
    hide Trim;
  }

  // ---- The two kinds of step are one ---------------------------------------------------------

  /** Every name the entry refers to is known. */
  ghost predicate Refers(known: set<NameKey>, entry: Entry) {
    match entry
    case RoomEntry(e) => true
    case ContainerEntry(e) =>
      RoomName(ScopeKey(e.room)) in known && (e.parent != "" ==> ContainerName(ParentKey(e)) in known)
    case ItemEntry(e) => !e.location.kind.OtherKind? && PlaceName(e.location) in known
  }

  /** The place of the entry in the store is taken, by something the maps do not find. */
  ghost predicate Taken(s: State, known: set<NameKey>, entry: Entry)
    requires Sound(s)
  {
    KeyOf(entry) !in known && StoreKey(KeyOf(entry)) in World(s)
  }

  /**
   The step through the maps fails on names it does not know, fails with ErrConflict where
   its place is taken, and is the step of the stored form of the entry otherwise.
   */
  ghost predicate Agrees(s: State, m: Maps, known: set<NameKey>, entry: Entry)
    requires Sound(s)
  {
    var (t, next, r) := EntryBy(s, m, entry);
    if !Refers(known, entry) then
      t == s && next == m && r == Err(if entry.ItemEntry? then Validation else Broken)
    else if Taken(s, known, entry) then
      WellFormed(entry) ==> t == s && next == m && r == Err(Conflict)
    else
      (t, r) == EntryStep(s, Stored(entry)) && Sound(t) && (r.Ok? ==> Follows(next, known + {KeyOf(entry)}, World(t)))
  }

  lemma RoomAgrees(s: State, m: Maps, known: set<NameKey>, e: DocRoom)
    requires Sound(s) && Follows(m, known, World(s))
    ensures Agrees(s, m, known, RoomEntry(e))
  {
    hide Sound, Follows, CreateRoom, UpdateRoom;
    var target, key := RoomTarget(e), KeyOf(RoomEntry(e));
    TrimTwice(e.name);
    TrimTwice(e.description);
    RoomStepSound(s, e);
    RoomKnown(s, m, known, key);
    if key in known {
      var row := target.(id := m.rooms[key.name].id);
      if UpdateRoom(s, row).1.Ok? {
        UpdatedRoomIndexed(s, row);
        RoomPutFollows(m, known, World(s), key.name, UpdateRoom(s, row).1.value);
      }
      assert known + {key} == known;
    } else if key in World(s) {
      FoundRoom(s, key.name);
      if ValidRoom(target) {
        RoomTaken(s, target, World(s)[key].room.id);
      }
    } else if CreateRoom(s, target).1.Ok? {
      CreatedRoomIndexed(s, target);
      RoomPutFollows(m, known, World(s), key.name, CreateRoom(s, target).1.value);
    }
  }

  lemma RoomKnown(s: State, m: Maps, known: set<NameKey>, key: NameKey)
    requires Sound(s) && Follows(m, known, World(s)) && key.RoomName?
    ensures key.name in m.rooms <==> key in known
    ensures key in known ==>
      key in World(s) && World(s)[key] == RoomRow(m.rooms[key.name])
      && m.rooms[key.name].id in s.rooms && s.rooms[m.rooms[key.name].id] == m.rooms[key.name]
      && ScopeKey(m.rooms[key.name].name) == key.name
  {
    hide Sound;
    assert Knows(m, key) <==> key in known;
    if key in known {
      KnownRow(s, m, known, key);
    }
  }

  lemma ContainerKnown(s: State, m: Maps, known: set<NameKey>, key: NameKey)
    requires Sound(s) && Follows(m, known, World(s)) && key.ContainerName?
    ensures key.key in m.containers <==> key in known
    ensures key in known ==>
      StoreKey(key) in World(s) && World(s)[StoreKey(key)] == ContainerRow(m.containers[key.key])
      && m.containers[key.key].id in s.containers && s.containers[m.containers[key.key].id] == m.containers[key.key]
      && KeyOfContainer(s.rooms, m.containers[key.key]) == StoreKey(key)
  {
    hide Sound, Trim, ScopeKey;
    assert Knows(m, key) <==> key in known;
    if key in known {
      KnownRow(s, m, known, key);
    }
  }

  lemma ItemKnown(s: State, m: Maps, known: set<NameKey>, key: NameKey)
    requires Sound(s) && Follows(m, known, World(s)) && key.ItemName?
    ensures key.itemKey in m.items <==> key in known
    ensures key in known ==>
      StoreKey(key) in World(s) && World(s)[StoreKey(key)] == ItemRow(m.items[key.itemKey])
      && m.items[key.itemKey].id in s.items && s.items[m.items[key.itemKey].id] == m.items[key.itemKey]
      && KeyOfItem(s.rooms, s.containers, m.items[key.itemKey]) == StoreKey(key)
  {
    hide Sound, Trim, ScopeKey;
    assert Knows(m, key) <==> key in known;
    if key in known {
      KnownRow(s, m, known, key);
    }
  }

  /** The parent an entry names, as the maps find it. */
  function ParentBy(m: Maps, e: DocContainer): Option<int>
    requires e.parent != "" ==> ParentKey(e) in m.containers
  {
    if e.parent == "" then None else Some(m.containers[ParentKey(e)].id)
  }

  function StoredContainer(e: DocContainer): DocContainer {
    e.(name := Trim(e.name), parent := Trim(e.parent))
  }

  /** The names a container entry refers to are found the same way in its stored form. */
  lemma ContainerNamesAgree(s: State, m: Maps, known: set<NameKey>, e: DocContainer)
    requires Sound(s) && Follows(m, known, World(s)) && Refers(known, ContainerEntry(e))
    ensures ScopeKey(e.room) in m.rooms && (e.parent != "" ==> ParentKey(e) in m.containers)
    ensures RoomName(ScopeKey(e.room)) in World(s)
    ensures World(s)[RoomName(ScopeKey(e.room))] == RoomRow(m.rooms[ScopeKey(e.room)])
    ensures e.parent == "" <==> Trim(e.parent) == ""
    ensures e.parent != "" ==>
      var parent := ContainerName(ParentKey(StoredContainer(e)));
      && parent in World(s) && World(s)[parent] == ContainerRow(m.containers[ParentKey(e)])
  {
    hide Sound, Follows, Trim, ScopeKey;
    RoomKnown(s, m, known, RoomName(ScopeKey(e.room)));
    if e.parent != "" {
      ContainerKnown(s, m, known, ContainerName(ParentKey(e)));
      StoredParentKey(e);
      TrimFolds(e.parent);
      RowTrimmed(s, m.containers[ParentKey(e)].id);
      ScopeKeyEmpty(m.containers[ParentKey(e)].name);
      ScopeKeyEmpty(Trim(e.parent));
    } else {
      TrimIdentity("");
    }
  }

  /** What the entry asks for fits the store: its room and parent are there, its names trimmed. */
  lemma ContainerTargetPlaced(s: State, m: Maps, known: set<NameKey>, e: DocContainer)
    requires Sound(s) && Follows(m, known, World(s)) && Refers(known, ContainerEntry(e))
    ensures ScopeKey(e.room) in m.rooms && (e.parent != "" ==> ParentKey(e) in m.containers)
    ensures var target := ContainerTarget(e, m.rooms[ScopeKey(e.room)].id, ParentBy(m, e));
      && NormalContainer(target) == target
      && target == ContainerTarget(StoredContainer(e), m.rooms[ScopeKey(e.room)].id, ParentBy(m, e))
      && target.roomId in s.rooms && ParentProblem(s.containers, target.parent, target.roomId).None?
      && KeyOfContainer(s.rooms, target) == StoreKey(KeyOf(ContainerEntry(e)))
      && (WellFormed(ContainerEntry(e)) ==> ValidContainer(target))
  {
    hide Follows, Trim, ScopeKey, Refers, RoomsSound, ItemsSound;
    ContainerNamesAgree(s, m, known, e);
    var target := ContainerTarget(e, m.rooms[ScopeKey(e.room)].id, ParentBy(m, e));
    TrimTwice(e.name);
    TrimTwice(e.description);
    TrimFolds(e.name);
    FoundRoom(s, ScopeKey(e.room));
    RoomIdValid(s, target.roomId);
    if e.parent != "" {
      FoundContainer(s, ParentKey(StoredContainer(e)));
      RoomKeyApart(s, target.roomId, s.containers[target.parent.value].roomId);
    }
  }

  lemma RoomIdValid(s: State, id: int)
    requires Sound(s) && id in s.rooms
    ensures id > 0
  {
  }

  lemma ContainerAgrees(s: State, m: Maps, known: set<NameKey>, e: DocContainer)
    requires Sound(s) && Follows(m, known, World(s))
    ensures Agrees(s, m, known, ContainerEntry(e))
  {
    hide Sound, Follows, CreateContainer, UpdateContainer, ParentProblem, Trim, ScopeKey;
    RoomKnown(s, m, known, RoomName(ScopeKey(e.room)));
    ContainerKnown(s, m, known, ContainerName(ParentKey(e)));
    if Refers(known, ContainerEntry(e)) {
      KnownContainerAgrees(s, m, known, e);
    }
  }

  lemma KnownContainerAgrees(s: State, m: Maps, known: set<NameKey>, e: DocContainer)
    requires Sound(s) && Follows(m, known, World(s)) && Refers(known, ContainerEntry(e))
    ensures Agrees(s, m, known, ContainerEntry(e))
  {
    hide Sound, Follows, CreateContainer, UpdateContainer, ParentProblem, Trim, ScopeKey, KeyOfContainer, ContainerTarget;
    hide WellFormed, Refers;
    var key := KeyOf(ContainerEntry(e));
    ContainerNamesAgree(s, m, known, e);
    ContainerTargetPlaced(s, m, known, e);
    StoredKey(ContainerEntry(e));
    ContainerStepSound(s, StoredContainer(e));
    ContainerKnown(s, m, known, key);
    var target := ContainerTarget(e, m.rooms[ScopeKey(e.room)].id, ParentBy(m, e));
    if key in known {
      var row := target.(id := m.containers[key.key].id);
      if UpdateContainer(s, row).1.Ok? {
        UpdatedTarget(s, target, m.containers[key.key]);
        UpdatedContainerIndexed(s, row);
        ContainerPutFollows(m, known, World(s), key.key, UpdateContainer(s, row).1.value);
      }
      assert known + {key} == known;
    } else if StoreKey(key) in World(s) {
      if WellFormed(ContainerEntry(e)) {
        TakenContainer(s, target, StoreKey(key));
      }
    } else if CreateContainer(s, target).1.Ok? {
      CreatedContainerIndexed(s, target);
      ContainerPutFollows(m, known, World(s), key.key, CreateContainer(s, target).1.value);
    }
  }

  lemma UpdatedTarget(s: State, target: Container, current: Container)
    requires current.id in s.containers && s.containers[current.id] == current
    requires NormalContainer(target) == target && KeyOfContainer(s.rooms, current) == KeyOfContainer(s.rooms, target)
    ensures var row := target.(id := current.id);
      ContainerNamed(s, row) && KeyOfContainer(s.rooms, NormalContainer(row)) == KeyOfContainer(s.rooms, target)
  {
    hide Trim, ScopeKey;
  }

  lemma TakenContainer(s: State, target: Container, key: NameKey)
    requires Sound(s) && key.ContainerName? && key in World(s) && KeyOfContainer(s.rooms, target) == key
    requires NormalContainer(target) == target && ValidContainer(target)
    requires target.roomId in s.rooms && ParentProblem(s.containers, target.parent, target.roomId).None?
    ensures CreateContainer(s, target) == (s, Err(Conflict))
  {
    hide Sound, ValidContainer, NormalContainer, ParentProblem, Trim, ScopeKey;
    FoundContainer(s, key.key);
    var id := World(s)[key].container.id;
    IdsAreNew(s);
    SoundRows(s);
    RoomKeyApart(s, target.roomId, s.containers[id].roomId);
    ContainerTaken(s, target, id);
  }

  /** The place of an item is found the same way in its stored form. */
  lemma ResolveAgrees(s: State, m: Maps, known: set<NameKey>, place: DocLocation)
    requires Sound(s) && Follows(m, known, World(s))
    ensures ResolveBy(m, place) ==
      if !place.kind.OtherKind? && PlaceName(place) in known then Resolve(s, StoredPlace(place)) else Err(Validation)
    ensures !place.kind.OtherKind? && PlaceName(place) in known ==> PlaceNamed(s, StoredPlace(place))
  {
    hide Sound, Follows, Trim, ScopeKey;
    RoomKnown(s, m, known, RoomName(ScopeKey(place.room)));
    ContainerKnown(s, m, known, ContainerName(ContainerKey(ScopeKey(place.room), ScopeKey(place.container))));
    StoredPlaceName(place);
  }

  lemma ItemAgrees(s: State, m: Maps, known: set<NameKey>, e: DocItem)
    requires Sound(s) && Follows(m, known, World(s))
    ensures Agrees(s, m, known, ItemEntry(e))
  {
    hide Sound, Follows, CreateItem, UpdateItem, ItemTarget, Trim, ScopeKey, Resolve, PlaceNamed, WellFormed;
    ResolveAgrees(s, m, known, e.location);
    if Refers(known, ItemEntry(e)) {
      KnownItemAgrees(s, m, known, e);
    }
  }

  lemma ItemTargetPlaced(s: State, e: DocItem)
    requires Sound(s) && PlaceNamed(s, StoredPlace(e.location))
    ensures Resolve(s, StoredPlace(e.location)).Ok?
    ensures var target := ItemTarget(e, Resolve(s, StoredPlace(e.location)).value);
      && NormalItem(target) == target && LocationExists(s, target.location)
      && KeyOfItem(s.rooms, s.containers, target) == StoreKey(KeyOf(ItemEntry(e)))
      && (WellFormed(ItemEntry(e)) ==> ValidItem(target))
  {
    hide Sound, Trim, ScopeKey, StoredLabels, ValidLabels;
    ResolvedPlace(s, StoredPlace(e.location));
    var place := Resolve(s, StoredPlace(e.location)).value;
    TrimTwice(e.name);
    TrimTwice(e.description);
    TrimTwice(e.notes);
    TrimAllTwice(e.tags);
    TrimAllTwice(e.aliases);
    StoredKey(ItemEntry(e));
  }

  lemma KnownItemAgrees(s: State, m: Maps, known: set<NameKey>, e: DocItem)
    requires Sound(s) && Follows(m, known, World(s)) && Refers(known, ItemEntry(e))
    ensures Agrees(s, m, known, ItemEntry(e))
  {
    hide Sound, Follows, CreateItem, UpdateItem, ItemTarget, Trim, ScopeKey, Resolve, PlaceNamed, WellFormed;
    hide KeyOfItem, LocationExists, NormalItem, ValidItem;
    var key := KeyOf(ItemEntry(e));
    ResolveAgrees(s, m, known, e.location);
    ItemTargetPlaced(s, e);
    StoredKey(ItemEntry(e));
    ItemStepSound(s, e.(location := StoredPlace(e.location)));
    ItemKnown(s, m, known, key);
    var target := ItemTarget(e, Resolve(s, StoredPlace(e.location)).value);
    StoredItemTarget(e, Resolve(s, StoredPlace(e.location)).value);
    if key in known {
      var row := target.(id := m.items[key.itemKey].id);
      if UpdateItem(s, row).1.Ok? {
        UpdatedItemTarget(s, target, m.items[key.itemKey]);
        UpdatedItemIndexed(s, row);
        ItemPutFollows(m, known, World(s), key.itemKey, UpdateItem(s, row).1.value);
      }
      assert known + {key} == known;
    } else if StoreKey(key) in World(s) {
      if WellFormed(ItemEntry(e)) {
        TakenItem(s, target, StoreKey(key));
      }
    } else if CreateItem(s, target).1.Ok? {
      CreatedItemIndexed(s, target);
      ItemPutFollows(m, known, World(s), key.itemKey, CreateItem(s, target).1.value);
    }
  }

  lemma StoredItemTarget(e: DocItem, place: Location)
    ensures ItemTarget(e.(location := StoredPlace(e.location)), place) == ItemTarget(e, place)
  {
  }

  lemma UpdatedItemTarget(s: State, target: Item, current: Item)
    requires current.id in s.items && s.items[current.id] == current
    requires NormalItem(target) == target
    requires KeyOfItem(s.rooms, s.containers, current) == KeyOfItem(s.rooms, s.containers, target)
    ensures var row := target.(id := current.id);
      ItemNamed(s, row) && KeyOfItem(s.rooms, s.containers, NormalItem(row)) == KeyOfItem(s.rooms, s.containers, target)
  {
    hide Trim, ScopeKey, PlaceKey;
  }

  lemma TakenItem(s: State, target: Item, key: NameKey)
    requires Sound(s) && key.ItemName? && key in World(s) && KeyOfItem(s.rooms, s.containers, target) == key
    requires NormalItem(target) == target && ValidItem(target) && LocationExists(s, target.location)
    ensures CreateItem(s, target) == (s, Err(Conflict))
  {
    hide Sound, ValidItem, NormalItem, LocationExists, Trim, ScopeKey, PlaceKey;
    FoundItem(s, key.itemKey);
    var id := World(s)[key].item.id;
    IdsAreNew(s);
    PlaceKeyApart(s, s.items[id].location, target.location);
    ItemTaken(s, target, id);
  }

  lemma EntryAgrees(s: State, m: Maps, known: set<NameKey>, entry: Entry)
    requires Sound(s) && Follows(m, known, World(s))
    ensures Agrees(s, m, known, entry)
  {
    match entry
    case RoomEntry(e) => RoomAgrees(s, m, known, e);
    case ContainerEntry(e) => ContainerAgrees(s, m, known, e);
    case ItemEntry(e) => ItemAgrees(s, m, known, e);
  }

  /** Whatever the maps say, a step leaves the store sound. */
  lemma EntryBySound(s: State, m: Maps, entry: Entry)
    requires Sound(s)
    ensures Sound(EntryBy(s, m, entry).0)
  {
    hide Sound, CreateRoom, UpdateRoom, CreateContainer, UpdateContainer, CreateItem, UpdateItem;
    forall r ensures Sound(CreateRoom(s, r).0) && Sound(UpdateRoom(s, r).0) {
      CreateRoomSound(s, r);
      UpdateRoomSound(s, r);
    }
    forall c ensures Sound(CreateContainer(s, c).0) && Sound(UpdateContainer(s, c).0) {
      CreateContainerSound(s, c);
      UpdateContainerSound(s, c);
    }
    forall i ensures Sound(CreateItem(s, i).0) && Sound(UpdateItem(s, i).0) {
      CreateItemSound(s, i);
      UpdateItemSound(s, i);
    }
  }

  // ---- The whole script -----------------------------------------------------------------

  /** Entry after entry until one fails. */
  function ApplyBy(s: State, m: Maps, entries: seq<Entry>): (applied: Applied)
    ensures Sound(s) ==> Sound(applied.state)
    decreases |entries|
  {
    if entries == [] then Applied(s, [], None)
    else
      assert Sound(s) ==> Sound(EntryBy(s, m, entries[0]).0) by {
        if Sound(s) {
          EntryBySound(s, m, entries[0]);
        }
      }
      var (t, next, r) := EntryBy(s, m, entries[0]);
      if r.Err? then Applied(t, [], Some(r.error))
      else
        var rest := ApplyBy(t, next, entries[1..]);
        rest.(fates := [r.value] + rest.fates)
  }

  /** What is known after `done` entries: what was there, and their names. */
  ghost function KnownBy(view: NameView, script: seq<Entry>, done: nat): set<NameKey>
    requires done <= |script|
  {
    (view + DocView(script[..done])).Keys
  }

  lemma OneMoreKnown(view: NameView, script: seq<Entry>, done: nat)
    requires done < |script|
    ensures KnownBy(view, script, done + 1) == KnownBy(view, script, done) + {KeyOf(script[done])}
  {
    hide KeyOf, FactsFrom;
    assert script[..done] + [script[done]] == script[..done + 1];
    DocViewAppend(script[..done], script[done]);
  }

  lemma GroundedRefers(view: NameView, entry: Entry)
    requires WellFormed(entry) && Grounded(view, entry)
    ensures Refers(view.Keys, entry)
  {
    hide ScopeKey, Trim;
  }

  /** The place of the next entry is taken exactly when it collides. */
  lemma TakenIfCollides(view: NameView, script: seq<Entry>, done: nat, s: State)
    requires Sound(s) && NamesDistinct(script) && done < |script|
    requires View(s) == view + DocView(StoredAll(script)[..done])
    ensures Taken(s, KnownBy(view, script, done), script[done]) <==> Collides(view, script, done)
  {
    hide Sound, View, StoreKey, KeyOf, DocView, Stored;
    var key, stored := KeyOf(script[done]), StoredAll(script)[..done];
    ViewKnowsWorld(s, StoreKey(key));
    DocViewMentions(script[..done], key);
    DocViewMentions(stored, StoreKey(key));
    forall j | 0 <= j < done ensures KeyOf(stored[j]) == StoreKey(KeyOf(script[j])) && KeyOf(script[..done][j]) != key {
      StoredKey(script[j]);
      assert script[..done][j] == script[j];
    }
  }

  /** A run, broken off with ErrConflict if `cut` says so. */
  function CutShort(r: Applied, cut: bool): Applied {
    if cut && r.error.None? then r.(error := Some(Conflict)) else r
  }

  /**
   Applying a script through the maps is applying its stored form by names, up to the
   first entry that collides; there the import stops with ErrConflict.
   */
  lemma {:induction false} ApplyByNames(view: NameView, script: seq<Entry>, done: nat, c: nat, s: State, m: Maps)
    requires Sound(s) && Checkable(view, script) && Resting(view) && done <= c <= |script|
    requires View(s) == view + DocView(StoredAll(script)[..done])
    requires Follows(m, KnownBy(view, script, done), World(s))
    requires NoneCollides(view, script, c) && (c < |script| ==> Collides(view, script, c))
    ensures ApplyBy(s, m, script[done..]) == CutShort(ApplyEntries(s, StoredAll(script)[..c][done..]), c < |script|)
    decreases c - done
  {
    hide Sound, View, Checkable, Resting, Follows, Collides, Taken, Refers, EntryBy, EntryStep, WellFormed, Grounded, DocView, OthersKept, KnownBy, KeyOf, Stored, Runnable, StoreKey;
    if done < |script| {
      NextAgrees(view, script, done, s, m);
      DropOne(script, done);
      if done < c {
        var stored := StoredAll(script)[..c];
        StoredRunnable(view, script, c);
        assert StoredAll(script)[..done] == stored[..done];
        NextOverlays(view, stored, done, s);
        var (t, next, r) := EntryBy(s, m, script[done]);
        if r.Ok? {
          assert StoredAll(script)[..done + 1] == stored[..done + 1];
          OneMoreKnown(view, script, done);
          ApplyOneMore(s, stored, done);
          ApplyByNames(view, script, done + 1, c, t, next);
        } else {
          DropOne(stored, done);
        }
      }
    }
  }

  lemma NextAgrees(view: NameView, script: seq<Entry>, done: nat, s: State, m: Maps)
    requires Sound(s) && Checkable(view, script) && done < |script|
    requires View(s) == view + DocView(StoredAll(script)[..done])
    requires Follows(m, KnownBy(view, script, done), World(s))
    ensures var (t, next, r) := EntryBy(s, m, script[done]);
      if Collides(view, script, done) then (t, next, r) == (s, m, Err(Conflict))
      else
        (t, r) == EntryStep(s, Stored(script[done])) && Sound(t)
        && (r.Ok? ==> Follows(next, KnownBy(view, script, done) + {KeyOf(script[done])}, World(t)))
  {
    hide Sound, View, Follows, Collides, Taken, Refers, EntryBy, EntryStep, WellFormed, Grounded, DocView, KeyOf, Stored;
    TakenIfCollides(view, script, done, s);
    GroundedRefers(view + DocView(script[..done]), script[done]);
    EntryAgrees(s, m, KnownBy(view, script, done), script[done]);
  }

  lemma NextOverlays(view: NameView, stored: seq<Entry>, done: nat, s: State)
    requires Sound(s) && Runnable(view, stored) && done < |stored| && View(s) == view + DocView(stored[..done])
    ensures var (t, r) := EntryStep(s, stored[done]);
      r.Ok? ==> Sound(t) && View(t) == view + DocView(stored[..done + 1])
  {
    hide Sound, View, EntryStep, Clean, Grounded, DocView, OthersKept, StepReady, NamesAcyclic;
    StepExact(s, stored[done]);
    if EntryStep(s, stored[done]).1.Ok? {
      StepOverlays(view, stored, done, s);
    }
  }

  // ---- Progress through the script -------------------------------------------------------

  /** After `done` entries the store is in state `s`, and the rest is still to come. */
  ghost predicate Progress(start: Applied, script: seq<Entry>, done: nat, s: State, m: Maps, fates: seq<Fate>)
    requires done <= |script|
  {
    var rest := ApplyBy(s, m, script[done..]);
    |fates| == done && start == Applied(rest.state, fates + rest.fates, rest.error)
  }

  lemma OneMoreBefore(fates: seq<Fate>, fate: Fate, rest: seq<Fate>)
    ensures fates + ([fate] + rest) == (fates + [fate]) + rest
    ensures fates + [] == fates
  {
  }

  lemma ProgressStarts(s: State, m: Maps, script: seq<Entry>)
    ensures Progress(ApplyBy(s, m, script), script, 0, s, m, [])
  {
    hide ApplyBy;
    var applied := ApplyBy(s, m, script);
    assert script[0..] == script;
    assert [] + applied.fates == applied.fates;
  }

  /** One entry applied: either on to the next, or that is where it all ends. */
  lemma ProgressSteps(start: Applied, script: seq<Entry>, done: nat, s: State, m: Maps, fates: seq<Fate>)
    requires done < |script| && Progress(start, script, done, s, m, fates)
    ensures var (t, next, r) := EntryBy(s, m, script[done]);
      if r.Ok? then Progress(start, script, done + 1, t, next, fates + [r.value])
      else start == Applied(t, fates, Some(r.error))
  {
    hide EntryBy;
    var (t, next, r) := EntryBy(s, m, script[done]);
    DropOne(script, done);
    if r.Ok? {
      OneMoreBefore(fates, r.value, ApplyBy(t, next, script[done + 1..]).fates);
    } else {
      OneMoreBefore(fates, Created, []);
    }
  }

  lemma ProgressEnds(start: Applied, script: seq<Entry>, s: State, m: Maps, fates: seq<Fate>)
    requires Progress(start, script, |script|, s, m, fates)
    ensures start == Applied(s, fates, None)
  {
    OneMoreBefore(fates, Created, []);
  }

  /** The fates from position `a` up to `b`, as far as there are any. */
  function Stretch(fates: seq<Fate>, a: nat, b: nat): seq<Fate>
    requires a <= b
  {
    if |fates| <= a then [] else if |fates| <= b then fates[a..] else fates[a..b]
  }

  /** What is reported, kind by kind. */
  function ReportOf(fates: seq<Fate>, doc: Document): Report {
    var r, c, i := |doc.rooms|, |doc.containers|, |doc.items|;
    Report(Tally(Stretch(fates, 0, r)), Tally(Stretch(fates, r, r + c)), Tally(Stretch(fates, r + c, r + c + i)))
  }

  /** How many of `n` things lie in a stretch of `size` after the first `before`. */
  function Within(n: nat, before: nat, size: nat): nat {
    if n <= before then 0 else if n <= before + size then n - before else size
  }

  lemma StretchCounted(fates: seq<Fate>, a: nat, b: nat)
    requires a <= b
    ensures Total(Tally(Stretch(fates, a, b))) == Within(|fates|, a, b - a)
  {
    hide Tally, Total;
    TallyCountsAll(Stretch(fates, a, b));
  }

  /** Nothing is lost in a report: each kind counts those of its entries that were applied. */
  lemma ReportCountsEntries(fates: seq<Fate>, doc: Document)
    ensures var report, n := ReportOf(fates, doc), |fates|;
      && Total(report.rooms) == Within(n, 0, |doc.rooms|)
      && Total(report.containers) == Within(n, |doc.rooms|, |doc.containers|)
      && Total(report.items) == Within(n, |doc.rooms| + |doc.containers|, |doc.items|)
  {
    hide Stretch, Tally, Within;
    var r, c, i := |doc.rooms|, |doc.containers|, |doc.items|;
    StretchCounted(fates, 0, r);
    StretchCounted(fates, r, r + c);
    StretchCounted(fates, r + c, r + c + i);
  }

  /** The report of an import, whichever list it stopped in. */
  lemma ReportInParts(doc: Document, rooms: seq<Fate>, containers: seq<Fate>, items: seq<Fate>)
    requires |rooms| <= |doc.rooms| && |containers| <= |doc.containers| && |items| <= |doc.items|
    requires |rooms| < |doc.rooms| ==> containers == []
    requires |rooms| < |doc.rooms| || |containers| < |doc.containers| ==> items == []
    ensures ReportOf(rooms + containers + items, doc) == Report(Tally(rooms), Tally(containers), Tally(items))
  {
    hide Tally;
    var r, c, i := |doc.rooms|, |doc.containers|, |doc.items|;
    var fates := rooms + containers + items;
    assert Stretch(fates, 0, r) == rooms;
    assert Stretch(fates, r, r + c) == containers;
    assert Stretch(fates, r + c, r + c + i) == items;
  }
}
