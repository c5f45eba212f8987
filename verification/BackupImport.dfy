/**
 What an import does with one entry of a document: it looks the entry up by name
 and creates, updates or leaves alone what it finds.
 */
module BackupImport {
  import opened Text
  import opened Inventory
  import opened StoreModel
  import opened StoreInvariant
  import opened BackupDocument
  import opened BackupNames

  datatype Fate = Created | Updated | Unchanged

  datatype Entry = RoomEntry(room: DocRoom) | ContainerEntry(container: DocContainer) | ItemEntry(item: DocItem)

  function RoomTarget(e: DocRoom): Room {
    NormalRoom(Room(0, e.name, e.description))
  }

  function ContainerTarget(e: DocContainer, roomId: int, parent: Option<int>): Container {
    NormalContainer(Container(0, roomId, parent, e.name, e.description))
  }

  function ItemTarget(e: DocItem, place: Location): Item {
    NormalItem(Item(0, e.name, e.description, e.quantity, e.notes, e.tags, e.aliases, place))
  }

  function DocItemKey(e: DocItem): ItemKey {
    ItemKey(e.location.kind, ScopeKey(e.location.room), ScopeKey(e.location.container), ScopeKey(Trim(e.name)))
  }

  /** The name an entry is matched by. */
  function KeyOf(entry: Entry): NameKey {
    match entry
    case RoomEntry(e) => RoomName(ScopeKey(Trim(e.name)))
    case ContainerEntry(e) => ContainerName(EntryKey(e))
    case ItemEntry(e) => ItemName(DocItemKey(e))
  }

  /** What an entry says about the thing it names. */
  function FactsFrom(entry: Entry): Facts {
    match entry
    case RoomEntry(e) => RoomFacts(Trim(e.name), Trim(e.description))
    case ContainerEntry(e) =>
      ContainerFacts(Trim(e.name), Trim(e.description), if e.parent == "" then None else Some(ScopeKey(e.parent)))
    case ItemEntry(e) =>
      ItemFacts(Trim(e.name), Trim(e.description), e.quantity, Trim(e.notes),
        StoredLabels(TrimAll(e.tags)), StoredLabels(TrimAll(e.aliases)))
  }

  // ---- One entry ----------------------------------------------------------------------

  function Done<T>(written: (State, Outcome<T>), fate: Fate): (State, Outcome<Fate>) {
    (written.0, if written.1.Ok? then Ok(fate) else Err(written.1.error))
  }

  ghost function RoomStep(s: State, e: DocRoom): (State, Outcome<Fate>)
    requires Sound(s)
  {
    var target, key := RoomTarget(e), KeyOf(RoomEntry(e));
    if key !in World(s) then
      Done(CreateRoom(s, target), Created)
    else
      var current := World(s)[key].room;
      if current.name == target.name && current.description == target.description then (s, Ok(Unchanged))
      else Done(UpdateRoom(s, target.(id := current.id)), Updated)
  }

  predicate ContainersMatch(current: Container, target: Container) {
    current.name == target.name && current.description == target.description
    && current.roomId == target.roomId && current.parent == target.parent
  }

  ghost function ContainerStep(s: State, e: DocContainer): (State, Outcome<Fate>)
    requires Sound(s)
  {
    var room, parent, key := RoomName(ScopeKey(e.room)), ContainerName(ParentKey(e)), KeyOf(ContainerEntry(e));
    if room !in World(s) then (s, Err(Broken))
    else if e.parent != "" && parent !in World(s) then (s, Err(Broken))
    else
      var parentId := if e.parent == "" then None else Some(World(s)[parent].container.id);
      var target := ContainerTarget(e, World(s)[room].room.id, parentId);
      if key !in World(s) then
        Done(CreateContainer(s, target), Created)
      else
        var current := World(s)[key].container;
        if ContainersMatch(current, target) then (s, Ok(Unchanged))
        else Done(UpdateContainer(s, target.(id := current.id)), Updated)
  }

  ghost function Resolve(s: State, place: DocLocation): Outcome<Location>
    requires Sound(s)
  {
    var room, container := RoomName(ScopeKey(place.room)), ContainerName(ContainerKey(ScopeKey(place.room), ScopeKey(place.container)));
    match place.kind
    case RoomKind => if room in World(s) then Ok(InRoom(World(s)[room].room.id)) else Err(Validation)
    case ContainerKind => if container in World(s) then Ok(InContainer(World(s)[container].container.id)) else Err(Validation)
    case OtherKind(_) => Err(Validation)
  }

  predicate ItemsMatch(current: Item, target: Item) {
    current.(id := 0) == target.(id := 0)
  }

  ghost function ItemStep(s: State, e: DocItem): (State, Outcome<Fate>)
    requires Sound(s)
  {
    var place, key := Resolve(s, e.location), KeyOf(ItemEntry(e));
    if place.Err? then (s, Err(place.error))
    else
      var target := ItemTarget(e, place.value);
      if key !in World(s) then
        Done(CreateItem(s, target), Created)
      else
        var current := World(s)[key].item;
        if ItemsMatch(current, target) then (s, Ok(Unchanged))
        else Done(UpdateItem(s, target.(id := current.id)), Updated)
  }

  ghost function EntryStep(s: State, entry: Entry): (State, Outcome<Fate>)
    requires Sound(s)
  {
    match entry
    case RoomEntry(e) => RoomStep(s, e)
    case ContainerEntry(e) => ContainerStep(s, e)
    case ItemEntry(e) => ItemStep(s, e)
  }

  /** An import keeps the store sound whatever the document says. */
  lemma EntryStepSound(s: State, entry: Entry)
    requires Sound(s)
    ensures Sound(EntryStep(s, entry).0)
  {
    match entry
    case RoomEntry(e) => RoomStepSound(s, e);
    case ContainerEntry(e) => ContainerStepSound(s, e);
    case ItemEntry(e) => ItemStepSound(s, e);
  }

  lemma RoomStepSound(s: State, e: DocRoom)
    requires Sound(s)
    ensures Sound(RoomStep(s, e).0)
  {
    forall r ensures Sound(CreateRoom(s, r).0) && Sound(UpdateRoom(s, r).0) {
      CreateRoomSound(s, r);
      UpdateRoomSound(s, r);
    }
  }

  lemma ContainerStepSound(s: State, e: DocContainer)
    requires Sound(s)
    ensures Sound(ContainerStep(s, e).0)
  {
    forall c ensures Sound(CreateContainer(s, c).0) && Sound(UpdateContainer(s, c).0) {
      CreateContainerSound(s, c);
      UpdateContainerSound(s, c);
    }
  }

  lemma ItemStepSound(s: State, e: DocItem)
    requires Sound(s)
    ensures Sound(ItemStep(s, e).0)
  {
    forall i ensures Sound(CreateItem(s, i).0) && Sound(UpdateItem(s, i).0) {
      CreateItemSound(s, i);
      UpdateItemSound(s, i);
    }
  }

  // ---- What a step means at the level of names --------------------------------------

  /** The labels are listed in the order the database gives them back in. */
  predicate Orderly(entry: Entry) {
    entry.ItemEntry? ==>
      StoredLabels(TrimAll(entry.item.tags)) == TrimAll(entry.item.tags)
      && StoredLabels(TrimAll(entry.item.aliases)) == TrimAll(entry.item.aliases)
  }

  /** Labels are compared one by one, so a disorderly entry always rewrites what is there. */
  function FateOf(view: NameView, key: NameKey, facts: Facts, orderly: bool): Fate {
    if key !in view then Created else if view[key] == facts && orderly then Unchanged else Updated
  }

  /** What becomes of an entry, read off what the inventory says before. */
  function EntryFate(view: NameView, entry: Entry): Fate {
    FateOf(view, KeyOf(entry), FactsFrom(entry), Orderly(entry))
  }

  /** Rows the key does not name are the same rows afterwards. */
  ghost predicate OthersKept(s: State, t: State, key: NameKey) {
    forall row :: HasRow(s, row) && KeyOfRow(s, row) != key ==> HasRow(t, row) && KeyOfRow(t, row) == KeyOfRow(s, row)
  }

  /** From `s` to `t` the thing named `key` became what `facts` says. */
  ghost predicate Puts(s: State, t: State, fate: Fate, key: NameKey, facts: Facts, orderly: bool)
    requires Sound(s)
  {
    && Sound(t)
    && View(t) == View(s)[key := facts]
    && fate == FateOf(View(s), key, facts, orderly)
    && (fate.Unchanged? ==> t == s)
    && OthersKept(s, t, key)
  }

  lemma RowWritten(s: State, t: State, row: Row)
    requires Sound(s) && Sound(t) && Writes(s, t, row)
    requires forall r :: HasRow(s, r) ==> FactsOf(t.containers, r) == FactsOf(s.containers, r)
    ensures View(t) == View(s)[KeyOfRow(t, row) := FactsOf(t.containers, row)]
    ensures OthersKept(s, t, KeyOfRow(t, row))
  {
    WorldAfterWrite(s, t, row);
    ViewAfterWrite(s, t, row);
  }

  lemma RoomWrites(s: State, t: State, row: Room)
    requires RowsKnowIds(s)
    requires t.rooms == s.rooms[row.id := row] && t.containers == s.containers && t.items == s.items
    requires forall id :: id in s.containers ==> s.containers[id].roomId in s.rooms
    requires forall id :: id in s.items ==> LocationExists(s, s.items[id].location)
    requires row.id in s.rooms ==> KeyOfRoom(s.rooms[row.id]) == KeyOfRoom(row)
    ensures Writes(s, t, RoomRow(row))
    ensures forall r :: HasRow(s, r) ==> FactsOf(t.containers, r) == FactsOf(s.containers, r)
  {
    forall r | HasRow(s, r) ensures KeyOfRow(t, r) == KeyOfRow(s, r) || SameId(r, RoomRow(row)) {
      if r.ItemRow? {
        assert LocationExists(s, r.item.location);
      }
    }
  }

  /** Writing `row` over `s` is putting its facts under its key. */
  lemma WrittenPuts(s: State, t: State, row: Row, fate: Fate, facts: Facts, orderly: bool)
    requires Sound(s) && Sound(t) && Writes(s, t, row)
    requires forall r :: HasRow(s, r) ==> FactsOf(t.containers, r) == FactsOf(s.containers, r)
    requires FactsOf(t.containers, row) == facts
    requires !fate.Unchanged? && fate == FateOf(View(s), KeyOfRow(t, row), facts, orderly)
    ensures Puts(s, t, fate, KeyOfRow(t, row), facts, orderly)
  {
    RowWritten(s, t, row);
  }

  /** Leaving alone what already says the same is putting it there. */
  lemma KeptPuts(s: State, key: NameKey, facts: Facts)
    requires Sound(s) && key in View(s) && View(s)[key] == facts
    ensures Puts(s, s, Unchanged, key, facts, true)
  {
    assert View(s)[key := facts] == View(s);
  }

  lemma ViewKnowsWorld(s: State, key: NameKey)
    requires Sound(s)
    ensures key in View(s) <==> key in World(s)
    ensures key in World(s) ==> View(s)[key] == FactsOf(s.containers, World(s)[key])
  {
  }

  lemma FateOfNew(s: State, key: NameKey, facts: Facts, orderly: bool)
    requires Sound(s) && key !in World(s)
    ensures FateOf(View(s), key, facts, orderly) == Created
  {
    ViewKnowsWorld(s, key);
  }

  lemma FateOfOld(s: State, was: Row, facts: Facts, orderly: bool)
    requires Sound(s) && HasRow(s, was) && (FactsOf(s.containers, was) != facts || !orderly)
    ensures FateOf(View(s), KeyOfRow(s, was), facts, orderly) == Updated
  {
    ViewKnowsWorld(s, KeyOfRow(s, was));
  }

  lemma CreateRoomSucceeds(s: State, target: Room)
    requires Sound(s) && NormalRoom(target) == target && ValidRoom(target)
    requires KeyOfRoom(target) !in World(s)
    ensures CreateRoom(s, target).1.Ok?
  {
    forall b | b in s.rooms ensures KeyOfRoom(s.rooms[b]) != KeyOfRoom(target) {
      assert HasRow(s, RoomRow(s.rooms[b]));
    }
  }

  lemma UpdateRoomSucceeds(s: State, row: Room)
    requires Sound(s) && NormalRoom(row) == row && ValidRoom(row)
    requires row.id in s.rooms && KeyOfRoom(s.rooms[row.id]) == KeyOfRoom(row)
    ensures UpdateRoom(s, row).1.Ok?
  {
  }

  lemma CreatedRoomIs(s: State, target: Room)
    requires Sound(s) && NormalRoom(target) == target && CreateRoom(s, target).1.Ok?
    ensures var t, row := CreateRoom(s, target).0, target.(id := s.nextRoom);
      && row.id !in s.rooms
      && t.rooms == s.rooms[row.id := row] && t.containers == s.containers && t.items == s.items
  {
    hide ContainersSound, ItemsSound;
  }

  lemma CreatedRoomPuts(s: State, target: Room)
    requires Sound(s) && NormalRoom(target) == target && ValidRoom(target)
    requires KeyOfRoom(target) !in World(s)
    ensures CreateRoom(s, target).1.Ok?
    ensures Puts(s, CreateRoom(s, target).0, Created, KeyOfRoom(target), RoomFacts(target.name, target.description), true)
  {
    hide Sound, View, CreateRoom, NormalRoom, ValidRoom, Puts, RowsKnowIds, LocationExists, Writes, FateOf;
    var t, row := CreateRoom(s, target).0, target.(id := s.nextRoom);
    CreateRoomSucceeds(s, target);
    CreateRoomSound(s, target);
    SoundRows(s);
    CreatedRoomIs(s, target);
    RoomWrites(s, t, row);
    FateOfNew(s, KeyOfRoom(row), RoomFacts(row.name, row.description), true);
    WrittenPuts(s, t, RoomRow(row), Created, RoomFacts(target.name, target.description), true);
  }

  lemma UpdatedRoomIs(s: State, row: Room)
    requires NormalRoom(row) == row && UpdateRoom(s, row).1.Ok?
    ensures var t := UpdateRoom(s, row).0;
      t.rooms == s.rooms[row.id := row] && t.containers == s.containers && t.items == s.items
  {
  }

  lemma UpdatedRoomPuts(s: State, row: Room)
    requires Sound(s) && NormalRoom(row) == row && ValidRoom(row)
    requires row.id in s.rooms && KeyOfRoom(s.rooms[row.id]) == KeyOfRoom(row) && s.rooms[row.id] != row
    ensures UpdateRoom(s, row).1.Ok?
    ensures Puts(s, UpdateRoom(s, row).0, Updated, KeyOfRoom(row), RoomFacts(row.name, row.description), true)
  {
    hide Sound, View, UpdateRoom, NormalRoom, ValidRoom, Puts, LocationExists, Writes, FateOf;
    var t, was := UpdateRoom(s, row).0, s.rooms[row.id];
    UpdateRoomSucceeds(s, row);
    UpdateRoomSound(s, row);
    SoundRows(s);
    UpdatedRoomIs(s, row);
    RoomWrites(s, t, row);
    FateOfOld(s, RoomRow(was), RoomFacts(row.name, row.description), true);
    WrittenPuts(s, t, RoomRow(row), Updated, RoomFacts(row.name, row.description), true);
  }

  lemma RoomStepPuts(s: State, e: DocRoom)
    requires Sound(s) && ValidRoom(RoomTarget(e))
    ensures RoomStep(s, e).1.Ok?
    ensures Puts(s, RoomStep(s, e).0, RoomStep(s, e).1.value, KeyOf(RoomEntry(e)), FactsFrom(RoomEntry(e)), true)
  {
    var target, key := RoomTarget(e), KeyOf(RoomEntry(e));
    TrimTwice(e.name);
    TrimTwice(e.description);
    if key !in World(s) {
      CreatedRoomPuts(s, target);
    } else {
      var current := World(s)[key].room;
      assert HasRow(s, RoomRow(current)) && KeyOfRoom(current) == key;
      if current.name == target.name && current.description == target.description {
        ViewKnowsWorld(s, key);
        KeptPuts(s, key, FactsFrom(RoomEntry(e)));
      } else {
        UpdatedRoomPuts(s, target.(id := current.id));
      }
    }
  }
}
