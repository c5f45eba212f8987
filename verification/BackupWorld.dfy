/**
 Import as it runs: a world of names in memory, filled from the listings and kept
 in step with the store while entries are written.
 */
module BackupWorld {
  import opened Text
  import opened Inventory
  import opened StoreModel
  import opened StoreInvariant
  import opened BackupDocument
  import opened BackupNames
  import opened BackupImport
  import opened BackupSteps

  datatype Counts = Counts(created: int, updated: int, untouched: int)

  const NONE := Counts(0, 0, 0)

  datatype Report = Report(rooms: Counts, containers: Counts, items: Counts)

  function Count(counts: Counts, fate: Fate): Counts {
    match fate
    case Created => counts.(created := counts.created + 1)
    case Updated => counts.(updated := counts.updated + 1)
    case Unchanged => counts.(untouched := counts.untouched + 1)
  }

  /** How many entries met each fate. */
  function Tally(fates: seq<Fate>): Counts {
    if fates == [] then NONE else Count(Tally(fates[..|fates| - 1]), fates[|fates| - 1])
  }

  function Total(counts: Counts): int {
    counts.created + counts.updated + counts.untouched
  }

  lemma {:induction false} TallyCountsAll(fates: seq<Fate>)
    ensures Total(Tally(fates)) == |fates|
    decreases |fates|
  {
    if fates != [] {
      TallyCountsAll(fates[..|fates| - 1]);
    }
  }

  /** The three numbers are how often each fate was met. */
  lemma {:induction false} TallyCounts(fates: seq<Fate>)
    ensures Tally(fates).created == multiset(fates)[Created]
    ensures Tally(fates).updated == multiset(fates)[Updated]
    ensures Tally(fates).untouched == multiset(fates)[Unchanged]
    decreases |fates|
  {
    if fates != [] {
      var before, last := fates[..|fates| - 1], fates[|fates| - 1];
      TallyCounts(before);
      assert fates == before + [last];
    }
  }

  lemma TallyOneMore(fates: seq<Fate>, fate: Fate)
    ensures Tally(fates + [fate]) == Count(Tally(fates), fate)
  {
    assert (fates + [fate])[..|fates|] == fates;
  }

  // ---- In step with the store ------------------------------------------------------------

  type RoomMap = map<string, Room>
  type ContainerMap = map<ContainerKey, Container>
  type ItemMap = map<ItemKey, Item>

  /** What an import knows of the inventory by name. */
  datatype Maps = Maps(rooms: RoomMap, containers: ContainerMap, items: ItemMap)

  predicate RoomsInStep(rooms: RoomMap, world: map<NameKey, Row>) {
    && (forall k :: k in rooms ==> RoomName(k) in world && world[RoomName(k)] == RoomRow(rooms[k]))
    && (forall key :: key in world && key.RoomName? ==> key.name in rooms)
  }

  predicate ContainersInStep(containers: ContainerMap, world: map<NameKey, Row>) {
    && (forall k :: k in containers ==> ContainerName(k) in world && world[ContainerName(k)] == ContainerRow(containers[k]))
    && (forall key :: key in world && key.ContainerName? ==> key.key in containers)
  }

  predicate ItemsInStep(items: ItemMap, world: map<NameKey, Row>) {
    && (forall k :: k in items ==> ItemName(k) in world && world[ItemName(k)] == ItemRow(items[k]))
    && (forall key :: key in world && key.ItemName? ==> key.itemKey in items)
  }

  /** The three maps together are the index of the store. */
  predicate InStep(m: Maps, world: map<NameKey, Row>) {
    RoomsInStep(m.rooms, world) && ContainersInStep(m.containers, world) && ItemsInStep(m.items, world)
  }

  // ---- What the repositories leave in the index ---------------------------------------------

  /** `t` is `s` with one room row written, under the name it had. */
  ghost predicate RoomPut(s: State, t: State, row: Room) {
    && t.rooms == s.rooms[row.id := row] && t.containers == s.containers && t.items == s.items
    && (row.id in s.rooms ==> KeyOfRoom(s.rooms[row.id]) == KeyOfRoom(row))
  }

  ghost predicate ContainerPut(s: State, t: State, row: Container) {
    && t.containers == s.containers[row.id := row] && t.rooms == s.rooms && t.items == s.items
    && (row.id in s.containers ==>
      s.containers[row.id].roomId == row.roomId && ScopeKey(s.containers[row.id].name) == ScopeKey(row.name))
  }

  ghost predicate ItemPut(s: State, t: State, row: Item) {
    && t.items == s.items[row.id := row] && t.rooms == s.rooms && t.containers == s.containers
    && (row.id in s.items ==> KeyOfItem(s.rooms, s.containers, s.items[row.id]) == KeyOfItem(s.rooms, s.containers, row))
  }

  lemma WorldAfterRoom(s: State, t: State, row: Room)
    requires Sound(s) && Sound(t) && RoomPut(s, t, row)
    ensures World(t) == World(s)[KeyOfRoom(row) := RoomRow(row)]
  {
    SoundRows(s);
    RoomWrites(s, t, row);
    WorldAfterWrite(s, t, RoomRow(row));
  }

  lemma WorldAfterContainer(s: State, t: State, row: Container)
    requires Sound(s) && Sound(t) && ContainerPut(s, t, row)
    ensures World(t) == World(s)[KeyOfContainer(s.rooms, row) := ContainerRow(row)]
  {
    SoundRows(s);
    ContainerWrites(s, t, row);
    WorldAfterWrite(s, t, ContainerRow(row));
  }

  lemma WorldAfterItem(s: State, t: State, row: Item)
    requires Sound(s) && Sound(t) && ItemPut(s, t, row)
    ensures World(t) == World(s)[KeyOfItem(s.rooms, s.containers, row) := ItemRow(row)]
  {
    SoundRows(s);
    ItemWrites(s, t, row);
    WorldAfterWrite(s, t, ItemRow(row));
  }

  lemma CreatedRoomPut(s: State, target: Room)
    requires CreateRoom(s, target).1.Ok? && s.nextRoom !in s.rooms
    ensures var (t, r) := CreateRoom(s, target); RoomPut(s, t, r.value) && r.value.name == Trim(target.name)
  {
  }

  lemma UpdatedRoomPut(s: State, row: Room)
    requires UpdateRoom(s, row).1.Ok?
    requires row.id in s.rooms && ScopeKey(s.rooms[row.id].name) == ScopeKey(Trim(row.name))
    ensures var (t, r) := UpdateRoom(s, row); RoomPut(s, t, r.value) && r.value.name == Trim(row.name)
  {
  }

  lemma CreatedContainerPut(s: State, c: Container)
    requires CreateContainer(s, c).1.Ok? && s.nextContainer !in s.containers
    ensures var (t, r) := CreateContainer(s, c);
      ContainerPut(s, t, r.value) && r.value.name == Trim(c.name) && r.value.roomId == c.roomId
  {
  }

  lemma UpdatedContainerPut(s: State, c: Container)
    requires UpdateContainer(s, c).1.Ok?
    requires ContainerNamed(s, c)
    ensures var (t, r) := UpdateContainer(s, c);
      ContainerPut(s, t, r.value) && r.value.name == Trim(c.name) && r.value.roomId == c.roomId
  {
  }

  lemma CreatedItemPut(s: State, i: Item)
    requires CreateItem(s, i).1.Ok? && s.nextItem !in s.items
    ensures var (t, r) := CreateItem(s, i);
      ItemPut(s, t, r.value) && r.value.name == Trim(i.name) && r.value.location == i.location
  {
  }

  lemma UpdatedItemPut(s: State, i: Item)
    requires UpdateItem(s, i).1.Ok?
    requires ItemNamed(s, i)
    ensures var (t, r) := UpdateItem(s, i);
      ItemPut(s, t, r.value) && r.value.name == Trim(i.name) && r.value.location == i.location
  {
  }

  // ---- The index after a write ------------------------------------------------------------

  /** The row is stored already, under a name that differs at most in case. */
  predicate RoomNamed(s: State, row: Room) {
    row.id in s.rooms && ScopeKey(s.rooms[row.id].name) == ScopeKey(Trim(row.name))
  }

  predicate ContainerNamed(s: State, row: Container) {
    row.id in s.containers && ScopeKey(s.containers[row.id].name) == ScopeKey(Trim(row.name))
  }

  predicate ItemNamed(s: State, row: Item) {
    row.id in s.items && KeyOfItem(s.rooms, s.containers, s.items[row.id]) == KeyOfItem(s.rooms, s.containers, NormalItem(row))
  }

  /** From `s` to `t` the index of names gains or replaces one row. */
  ghost predicate Indexed(s: State, t: State, key: NameKey, row: Row)
    requires Sound(s)
  {
    Sound(t) && World(t) == World(s)[key := row]
  }

  lemma CreatedRoomIndexed(s: State, target: Room)
    requires Sound(s) && CreateRoom(s, target).1.Ok?
    ensures var (t, r) := CreateRoom(s, target); Indexed(s, t, KeyOfRoom(NormalRoom(target)), RoomRow(r.value))
  {
    hide Sound, CreateRoom, RoomPut;
    var (t, r) := CreateRoom(s, target);
    CreateRoomSound(s, target);
    IdsAreNew(s);
    CreatedRoomPut(s, target);
    WorldAfterRoom(s, t, r.value);
  }

  lemma UpdatedRoomIndexed(s: State, row: Room)
    requires Sound(s) && UpdateRoom(s, row).1.Ok? && RoomNamed(s, row)
    ensures var (t, r) := UpdateRoom(s, row); Indexed(s, t, KeyOfRoom(NormalRoom(row)), RoomRow(r.value))
  {
    hide Sound, UpdateRoom, RoomPut;
    var (t, r) := UpdateRoom(s, row);
    UpdateRoomSound(s, row);
    UpdatedRoomPut(s, row);
    WorldAfterRoom(s, t, r.value);
  }

  lemma CreatedContainerIndexed(s: State, target: Container)
    requires Sound(s) && CreateContainer(s, target).1.Ok?
    ensures var (t, r) := CreateContainer(s, target);
      Indexed(s, t, KeyOfContainer(s.rooms, NormalContainer(target)), ContainerRow(r.value))
  {
    hide Sound, CreateContainer, ContainerPut;
    var (t, r) := CreateContainer(s, target);
    CreateContainerSound(s, target);
    IdsAreNew(s);
    CreatedContainerPut(s, target);
    WorldAfterContainer(s, t, r.value);
  }

  lemma UpdatedContainerIndexed(s: State, row: Container)
    requires Sound(s) && UpdateContainer(s, row).1.Ok? && ContainerNamed(s, row)
    ensures var (t, r) := UpdateContainer(s, row);
      Indexed(s, t, KeyOfContainer(s.rooms, NormalContainer(row)), ContainerRow(r.value))
  {
    hide Sound, UpdateContainer, ContainerPut;
    var (t, r) := UpdateContainer(s, row);
    UpdateContainerSound(s, row);
    UpdatedContainerPut(s, row);
    WorldAfterContainer(s, t, r.value);
  }

  lemma CreatedItemIndexed(s: State, target: Item)
    requires Sound(s) && CreateItem(s, target).1.Ok?
    ensures var (t, r) := CreateItem(s, target);
      Indexed(s, t, KeyOfItem(s.rooms, s.containers, NormalItem(target)), ItemRow(r.value))
  {
    hide Sound, CreateItem, ItemPut;
    var (t, r) := CreateItem(s, target);
    CreateItemSound(s, target);
    IdsAreNew(s);
    CreatedItemPut(s, target);
    WorldAfterItem(s, t, r.value);
  }

  lemma UpdatedItemIndexed(s: State, row: Item)
    requires Sound(s) && UpdateItem(s, row).1.Ok? && ItemNamed(s, row)
    ensures var (t, r) := UpdateItem(s, row);
      Indexed(s, t, KeyOfItem(s.rooms, s.containers, NormalItem(row)), ItemRow(r.value))
  {
    hide Sound, UpdateItem, ItemPut;
    var (t, r) := UpdateItem(s, row);
    UpdateItemSound(s, row);
    UpdatedItemPut(s, row);
    WorldAfterItem(s, t, r.value);
  }
}
