/**
 The inventory as a document names it. Every row is found under a key made of
 folded names, and `View` is what the inventory says at that level: which names
 there are and what each of them stands for, with no id in sight.
 */
module BackupNames {
  import opened Text
  import opened Inventory
  import opened StoreModel
  import opened StoreInvariant
  import opened BackupDocument

  /** An item is identified by its place and its name, folded. */
  datatype ItemKey = ItemKey(kind: Kind, room: string, container: string, name: string)

  datatype NameKey = RoomName(name: string) | ContainerName(key: ContainerKey) | ItemName(itemKey: ItemKey)

  datatype Row = RoomRow(room: Room) | ContainerRow(container: Container) | ItemRow(item: Item)

  function KeyOfRoom(room: Room): NameKey {
    RoomName(ScopeKey(room.name))
  }

  function RoomKey(rooms: Rooms, id: int): string {
    if id in rooms then ScopeKey(rooms[id].name) else ""
  }

  function KeyOfContainer(rooms: Rooms, c: Container): NameKey {
    ContainerName(ContainerKey(RoomKey(rooms, c.roomId), ScopeKey(c.name)))
  }

  /** The room and the container a location is keyed by. */
  function PlaceKey(rooms: Rooms, cs: Containers, place: Location): (string, string) {
    if place.kind.RoomKind? then (RoomKey(rooms, place.id), "")
    else if place.kind.ContainerKind? && place.id in cs then
      (RoomKey(rooms, cs[place.id].roomId), ScopeKey(cs[place.id].name))
    else ("", "")
  }

  function KeyOfItem(rooms: Rooms, cs: Containers, item: Item): NameKey {
    var (room, container) := PlaceKey(rooms, cs, item.location);
    ItemName(ItemKey(item.location.kind, room, container, ScopeKey(item.name)))
  }

  function KeyOfRow(s: State, row: Row): NameKey {
    match row
    case RoomRow(room) => KeyOfRoom(room)
    case ContainerRow(c) => KeyOfContainer(s.rooms, c)
    case ItemRow(item) => KeyOfItem(s.rooms, s.containers, item)
  }

  predicate HasRow(s: State, row: Row) {
    match row
    case RoomRow(room) => room.id in s.rooms && s.rooms[room.id] == room
    case ContainerRow(c) => c.id in s.containers && s.containers[c.id] == c
    case ItemRow(item) => item.id in s.items && s.items[item.id] == item
  }

  /** `world` finds every row of the store under its key, and nothing else. */
  ghost predicate Indexes(world: map<NameKey, Row>, s: State) {
    && (forall row :: HasRow(s, row) ==> KeyOfRow(s, row) in world && world[KeyOfRow(s, row)] == row)
    && (forall key :: key in world ==> HasRow(s, world[key]) && KeyOfRow(s, world[key]) == key)
  }

  lemma RoomKeyApart(s: State, a: int, b: int)
    requires Sound(s) && a in s.rooms && b in s.rooms
    ensures RoomKey(s.rooms, a) == RoomKey(s.rooms, b) ==> a == b
  {
  }

  lemma ContainerKeyApart(s: State, a: int, b: int)
    requires Sound(s) && a in s.containers && b in s.containers
    ensures KeyOfContainer(s.rooms, s.containers[a]) == KeyOfContainer(s.rooms, s.containers[b]) ==> a == b
  {
    RoomKeyApart(s, s.containers[a].roomId, s.containers[b].roomId);
    if KeyOfContainer(s.rooms, s.containers[a]) == KeyOfContainer(s.rooms, s.containers[b]) {
      assert SameRoomAndName(s.containers[a], s.containers[b]);
    }
  }

  lemma PlaceKeyApart(s: State, p: Location, q: Location)
    requires Sound(s) && LocationExists(s, p) && LocationExists(s, q)
    ensures p.kind == q.kind && PlaceKey(s.rooms, s.containers, p) == PlaceKey(s.rooms, s.containers, q) ==> p == q
  {
    if p.kind == q.kind {
      if p.kind.RoomKind? {
        RoomKeyApart(s, p.id, q.id);
      } else {
        ContainerKeyApart(s, p.id, q.id);
      }
    }
  }

  lemma ItemKeyApart(s: State, a: int, b: int)
    requires Sound(s) && a in s.items && b in s.items
    ensures KeyOfItem(s.rooms, s.containers, s.items[a]) == KeyOfItem(s.rooms, s.containers, s.items[b]) ==> a == b
  {
    PlaceKeyApart(s, s.items[a].location, s.items[b].location);
    if KeyOfItem(s.rooms, s.containers, s.items[a]) == KeyOfItem(s.rooms, s.containers, s.items[b]) {
      assert SameSlot(s.items[a], s.items[b]);
    }
  }

  /** In a sound store a key names one row. */
  lemma KeysApart(s: State, a: Row, b: Row)
    requires Sound(s) && HasRow(s, a) && HasRow(s, b) && KeyOfRow(s, a) == KeyOfRow(s, b)
    ensures a == b
  {
    match a
    case RoomRow(room) => RoomKeyApart(s, room.id, b.room.id);
    case ContainerRow(c) => ContainerKeyApart(s, c.id, b.container.id);
    case ItemRow(item) => ItemKeyApart(s, item.id, b.item.id);
  }

  lemma SomeIndex(s: State)
    requires RowsKnowIds(s)
    requires forall a, b :: HasRow(s, a) && HasRow(s, b) && KeyOfRow(s, a) == KeyOfRow(s, b) ==> a == b
    ensures exists world :: Indexes(world, s)
  {
    var rooms := set id | id in s.rooms :: RoomRow(s.rooms[id]);
    var containers := set id | id in s.containers :: ContainerRow(s.containers[id]);
    var items := set id | id in s.items :: ItemRow(s.items[id]);
    var rows := rooms + containers + items;
    forall row ensures row in rows <==> HasRow(s, row) {
      match row
      case RoomRow(room) => assert HasRow(s, row) ==> row == RoomRow(s.rooms[room.id]);
      case ContainerRow(c) => assert HasRow(s, row) ==> row == ContainerRow(s.containers[c.id]);
      case ItemRow(item) => assert HasRow(s, row) ==> row == ItemRow(s.items[item.id]);
    }
    IndexOf(s, rows);
  }

  lemma IndexOf(s: State, rows: set<Row>)
    requires forall row :: row in rows <==> HasRow(s, row)
    requires forall a, b :: HasRow(s, a) && HasRow(s, b) && KeyOfRow(s, a) == KeyOfRow(s, b) ==> a == b
    ensures exists world :: Indexes(world, s)
  {
    var world := map row | row in rows :: KeyOfRow(s, row) := row;
    forall key | key in world ensures HasRow(s, world[key]) && KeyOfRow(s, world[key]) == key {
      var row :| row in rows && KeyOfRow(s, row) == key;
      assert world[KeyOfRow(s, row)] == row;
    }
    assert Indexes(world, s);
  }

  lemma WorldExists(s: State)
    requires Sound(s)
    ensures exists world :: Indexes(world, s)
  {
    forall a, b | HasRow(s, a) && HasRow(s, b) && KeyOfRow(s, a) == KeyOfRow(s, b) ensures a == b {
      KeysApart(s, a, b);
    }
    SomeIndex(s);
  }

  ghost function World(s: State): (world: map<NameKey, Row>)
    requires Sound(s)
    ensures Indexes(world, s)
  {
    WorldExists(s);
    var world :| Indexes(world, s);
    world
  }

  lemma IndexUnique(world: map<NameKey, Row>, other: map<NameKey, Row>, s: State)
    requires Indexes(world, s) && Indexes(other, s)
    ensures world == other
  {
    assert world.Keys == other.Keys;
  }

  // ---- What the names stand for -------------------------------------------------

  datatype Facts =
    | RoomFacts(name: string, description: string)
    | ContainerFacts(name: string, description: string, parent: Option<string>)
    | ItemFacts(name: string, description: string, quantity: int, notes: string, tags: seq<string>, aliases: seq<string>)

  type NameView = map<NameKey, Facts>

  function ParentName(cs: Containers, parent: Option<int>): Option<string> {
    if parent.Some? && parent.value in cs then Some(ScopeKey(cs[parent.value].name)) else None
  }

  function FactsOf(cs: Containers, row: Row): Facts {
    match row
    case RoomRow(room) => RoomFacts(room.name, room.description)
    case ContainerRow(c) => ContainerFacts(c.name, c.description, ParentName(cs, c.parent))
    case ItemRow(i) => ItemFacts(i.name, i.description, i.quantity, i.notes, i.tags, i.aliases)
  }

  /** What an index says, key by key. */
  ghost function Read(world: map<NameKey, Row>, cs: Containers): NameView {
    map key | key in world :: FactsOf(cs, world[key])
  }

  ghost function View(s: State): NameView
    requires Sound(s)
  {
    Read(World(s), s.containers)
  }

  // ---- One row written ------------------------------------------------------------

  predicate SameId(a: Row, b: Row) {
    || (a.RoomRow? && b.RoomRow? && a.room.id == b.room.id)
    || (a.ContainerRow? && b.ContainerRow? && a.container.id == b.container.id)
    || (a.ItemRow? && b.ItemRow? && a.item.id == b.item.id)
  }

  /** From `s` to `t` the row is written and nothing else; no key changes. */
  ghost predicate Writes(s: State, t: State, row: Row) {
    && HasRow(t, row)
    && (forall r :: !SameId(r, row) ==> (HasRow(t, r) <==> HasRow(s, r)))
    && (forall r :: HasRow(s, r) ==> KeyOfRow(t, r) == KeyOfRow(s, r))
    && (forall r :: HasRow(s, r) && SameId(r, row) ==> KeyOfRow(s, r) == KeyOfRow(t, row))
  }

  lemma IndexAfterWrite(world: map<NameKey, Row>, s: State, t: State, row: Row)
    requires Indexes(world, s) && Writes(s, t, row)
    requires forall r :: HasRow(t, r) && KeyOfRow(t, r) == KeyOfRow(t, row) ==> r == row
    requires forall r :: HasRow(t, r) && SameId(r, row) ==> r == row
    ensures Indexes(world[KeyOfRow(t, row) := row], t)
  {
    var key := KeyOfRow(t, row);
    var next := world[key := row];
    forall r | HasRow(t, r) ensures KeyOfRow(t, r) in next && next[KeyOfRow(t, r)] == r {
      if r != row {
        assert HasRow(s, r);
      }
    }
    forall k | k in next ensures HasRow(t, next[k]) && KeyOfRow(t, next[k]) == k {
      if k != key {
        assert HasRow(s, world[k]) && !SameId(world[k], row);
      }
    }
  }

  lemma OneRowPerKey(t: State, row: Row)
    requires Sound(t) && HasRow(t, row)
    ensures forall r :: HasRow(t, r) && KeyOfRow(t, r) == KeyOfRow(t, row) ==> r == row
    ensures forall r :: HasRow(t, r) && SameId(r, row) ==> r == row
  {
    forall r | HasRow(t, r) && KeyOfRow(t, r) == KeyOfRow(t, row) ensures r == row {
      KeysApart(t, r, row);
    }
  }

  /** The index is kept in step by replacing the entry of the written row. */
  lemma WorldAfterWrite(s: State, t: State, row: Row)
    requires Sound(s) && Sound(t) && Writes(s, t, row)
    ensures World(t) == World(s)[KeyOfRow(t, row) := row]
  {
    OneRowPerKey(t, row);
    IndexAfterWrite(World(s), s, t, row);
    IndexUnique(World(t), World(s)[KeyOfRow(t, row) := row], t);
  }

  lemma ViewAfterWrite(s: State, t: State, row: Row)
    requires Sound(s) && Sound(t)
    requires World(t) == World(s)[KeyOfRow(t, row) := row]
    requires forall r :: HasRow(s, r) ==> FactsOf(t.containers, r) == FactsOf(s.containers, r)
    ensures View(t) == View(s)[KeyOfRow(t, row) := FactsOf(t.containers, row)]
  {
    ViewsAgree(World(s), World(t), s.containers, t.containers, KeyOfRow(t, row), row);
  }

  lemma ViewsAgree(world: map<NameKey, Row>, next: map<NameKey, Row>, cs: Containers, ds: Containers, key: NameKey, row: Row)
    requires next == world[key := row]
    requires forall k :: k in world ==> FactsOf(ds, world[k]) == FactsOf(cs, world[k])
    ensures Read(next, ds) == Read(world, cs)[key := FactsOf(ds, row)]
  {
  }
}
