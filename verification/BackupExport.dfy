/** Export: the whole inventory as a document, ordered by name and never by id. */
module BackupExport {
  import opened Text
  import opened Sorting
  import opened Inventory
  import opened Forest
  import opened StoreModel
  import opened StoreInvariant
  import opened Store
  import opened BackupDocument
  import opened BackupOrder
  import opened BackupNames

  function RoomOrder(room: DocRoom): seq<Part> {
    [Word(ScopeKey(room.name)), Word(room.name)]
  }

  function KindText(kind: Kind): string {
    match kind
    case RoomKind => "room"
    case ContainerKind => "container"
    case OtherKind(text) => text
  }

  /** By name, then by place. */
  function ItemOrder(item: DocItem): seq<Part> {
    [Word(ScopeKey(item.name)), Word(KindText(item.location.kind)), Word(ScopeKey(item.location.room)),
     Word(ScopeKey(item.location.container)), Word(item.name)]
  }

  function RoomText(rooms: Rooms, id: int): string {
    if id in rooms then rooms[id].name else ""
  }

  function ContainerText(cs: Containers, id: int): string {
    if id in cs then cs[id].name else ""
  }

  function DocRoomOf(room: Room): DocRoom {
    DocRoom(room.name, room.description)
  }

  function DocContainerOf(rooms: Rooms, cs: Containers, c: Container): DocContainer {
    DocContainer(RoomText(rooms, c.roomId), if c.parent.Some? then ContainerText(cs, c.parent.value) else "", c.name, c.description)
  }

  function DocPlaceOf(rooms: Rooms, cs: Containers, place: Location): DocLocation {
    if place.kind.ContainerKind? && place.id in cs
    then DocLocation(ContainerKind, RoomText(rooms, cs[place.id].roomId), cs[place.id].name)
    else DocLocation(place.kind, RoomText(rooms, place.id), "")
  }

  function DocItemOf(rooms: Rooms, cs: Containers, i: Item): DocItem {
    DocItem(i.name, i.description, i.quantity, i.notes, i.tags, i.aliases, DocPlaceOf(rooms, cs, i.location))
  }

  function DocRooms(rows: seq<Room>): (r: seq<DocRoom>)
    ensures |r| == |rows| && forall i :: 0 <= i < |r| ==> r[i] == DocRoomOf(rows[i])
  {
    seq(|rows|, i requires 0 <= i < |rows| => DocRoomOf(rows[i]))
  }

  function DocContainers(rooms: Rooms, cs: Containers, rows: seq<Container>): (r: seq<DocContainer>)
    ensures |r| == |rows| && forall i :: 0 <= i < |r| ==> r[i] == DocContainerOf(rooms, cs, rows[i])
  {
    seq(|rows|, i requires 0 <= i < |rows| => DocContainerOf(rooms, cs, rows[i]))
  }

  function DocItems(rooms: Rooms, cs: Containers, rows: seq<Item>): (r: seq<DocItem>)
    ensures |r| == |rows| && forall i :: 0 <= i < |r| ==> r[i] == DocItemOf(rooms, cs, rows[i])
  {
    seq(|rows|, i requires 0 <= i < |rows| => DocItemOf(rooms, cs, rows[i]))
  }

  /** The document made of the rows as they were listed. */
  ghost function ExportOf(s: State, rooms: seq<Room>, containers: seq<Container>, items: seq<Item>): Outcome<Document> {
    var ordered := Ordered(DocContainers(s.rooms, s.containers, containers));
    if ordered.Err? then Err(ordered.error)
    else Ok(Document(FORMAT, VERSION, StableSort(DocRooms(rooms), RoomOrder), ordered.value,
      StableSort(DocItems(s.rooms, s.containers, items), ItemOrder)))
  }

  /** `doc` is what an export of `s` may answer, whatever order the rows came in. */
  ghost predicate IsExport(s: State, doc: Document) {
    exists rooms, containers, items ::
      Lists(rooms, s.rooms) && Lists(containers, s.containers) && Lists(items, s.items)
      && ExportOf(s, rooms, containers, items) == Ok(doc)
  }

  // ---- The containers of a sound store can be ordered -----------------------------

  lemma DocContainerKey(s: State, c: Container)
    requires Sound(s) && c.roomId in s.rooms
    ensures ContainerName(EntryKey(DocContainerOf(s.rooms, s.containers, c))) == KeyOfContainer(s.rooms, c)
  {
  }

  lemma RowOf(s: State, rows: seq<Container>, i: int)
    requires Sound(s) && Lists(rows, s.containers) && 0 <= i < |rows|
    ensures rows[i].id in s.containers && s.containers[rows[i].id] == rows[i] && rows[i].roomId in s.rooms
  {
    assert rows[i] in rows;
  }

  lemma ExportKeysDistinct(s: State, rows: seq<Container>)
    requires Sound(s) && Lists(rows, s.containers)
    ensures KeysDistinct(DocContainers(s.rooms, s.containers, rows))
  {
    var entries := DocContainers(s.rooms, s.containers, rows);
    forall i, j | 0 <= i < |entries| && 0 <= j < |entries| && EntryKey(entries[i]) == EntryKey(entries[j]) ensures i == j {
      RowOf(s, rows, i);
      RowOf(s, rows, j);
      DocContainerKey(s, rows[i]);
      DocContainerKey(s, rows[j]);
      ContainerKeyApart(s, rows[i].id, rows[j].id);
    }
  }

  lemma ExportHangsAsStored(s: State, rows: seq<Container>, i: int, j: int)
    requires Sound(s) && Lists(rows, s.containers)
    requires HangsFrom(DocContainers(s.rooms, s.containers, rows), i, j)
    ensures rows[i].id in ParentLinks(s.containers) && ParentLinks(s.containers)[rows[i].id] == rows[j].id
  {
    RowOf(s, rows, i);
    RowOf(s, rows, j);
    var p := rows[i].parent.value;
    DocContainerKey(s, rows[j]);
    assert KeyOfContainer(s.rooms, s.containers[p]) == ContainerName(ParentKey(DocContainerOf(s.rooms, s.containers, rows[i])));
    ContainerKeyApart(s, rows[j].id, p);
  }

  lemma ExportOrders(s: State, rows: seq<Container>)
    requires Sound(s) && Lists(rows, s.containers)
    ensures Ordered(DocContainers(s.rooms, s.containers, rows)).Ok?
  {
    var entries, up := DocContainers(s.rooms, s.containers, rows), ParentLinks(s.containers);
    ExportKeysDistinct(s, rows);
    var links := EntryLinks(entries);
    var rank := map i | 0 <= i < |rows| :: Height(up, rows[i].id);
    forall i | i in links ensures i in rank && links[i] in rank && rank[links[i]] < rank[i] {
      assert HangsFrom(entries, i, links[i]);
      ExportHangsAsStored(s, rows, i, links[i]);
    }
    assert Ranked(links, rank);
    LoopFreeIffAcyclic(entries);
  }

  // ---- The loops of the source -----------------------------------------------------

  /** The names of the listed rooms, by id, and their entries. */
  method NameRooms(rows: seq<Room>, ghost rooms: Rooms) returns (names: map<int, string>, entries: seq<DocRoom>)
    requires forall id :: id in rooms ==> rooms[id].id == id
    requires Lists(rows, rooms)
    ensures names.Keys == rooms.Keys && forall id :: id in rooms ==> names[id] == rooms[id].name
    ensures entries == DocRooms(rows)
  {
    names, entries := map[], [];
    for i := 0 to |rows|
      invariant |entries| == i && forall k :: 0 <= k < i ==> entries[k] == DocRoomOf(rows[k])
      invariant forall k :: 0 <= k < i ==> rows[k].id in names
      invariant forall id :: id in names ==> id in rooms && names[id] == rooms[id].name
    {
      assert rows[i] in rows;
      names := names[rows[i].id := rows[i].name];
      entries := entries + [DocRoomOf(rows[i])];
    }
    forall id ensures id in names <==> id in rooms {
      if id in rooms {
        assert rooms[id] in rows;
        var k :| 0 <= k < |rows| && rows[k] == rooms[id];
        assert rows[k].id in names;
      }
    }
  }

  /** A listed container can come before its parent, so every name is read first. */
  method NameContainers(rows: seq<Container>, roomNames: map<int, string>, ghost rooms: Rooms, ghost cs: Containers)
    returns (names: map<int, DocLocation>)
    requires forall id :: id in cs ==> cs[id].id == id && cs[id].roomId in rooms
    requires Lists(rows, cs)
    requires roomNames.Keys == rooms.Keys && forall id :: id in rooms ==> roomNames[id] == rooms[id].name
    ensures names.Keys == cs.Keys
    ensures forall id :: id in cs ==> names[id] == DocPlaceOf(rooms, cs, InContainer(id))
  {
    names := map[];
    for i := 0 to |rows|
      invariant forall k :: 0 <= k < i ==> rows[k].id in names
      invariant forall id :: id in names ==> id in cs && names[id] == DocPlaceOf(rooms, cs, InContainer(id))
    {
      assert rows[i] in rows;
      names := names[rows[i].id := DocLocation(ContainerKind, roomNames[rows[i].roomId], rows[i].name)];
    }
    forall id ensures id in names <==> id in cs {
      if id in cs {
        assert cs[id] in rows;
        var k :| 0 <= k < |rows| && rows[k] == cs[id];
        assert rows[k].id in names;
      }
    }
  }

  method ContainerEntries(rows: seq<Container>, roomNames: map<int, string>, names: map<int, DocLocation>,
      ghost rooms: Rooms, ghost cs: Containers)
    returns (entries: seq<DocContainer>)
    requires forall c :: c in rows ==> c.roomId in rooms && (c.parent.Some? ==> c.parent.value in cs)
    requires roomNames.Keys == rooms.Keys && forall id :: id in rooms ==> roomNames[id] == rooms[id].name
    requires names.Keys == cs.Keys && forall id :: id in cs ==> names[id] == DocPlaceOf(rooms, cs, InContainer(id))
    ensures entries == DocContainers(rooms, cs, rows)
  {
    entries := [];
    for i := 0 to |rows|
      invariant |entries| == i && forall k :: 0 <= k < i ==> entries[k] == DocContainerOf(rooms, cs, rows[k])
    {
      var c := rows[i];
      assert c in rows;
      var entry := DocContainer(roomNames[c.roomId], "", c.name, c.description);
      if c.parent.Some? {
        entry := entry.(parent := names[c.parent.value].container);
      }
      entries := entries + [entry];
    }
  }

  method ItemEntries(rows: seq<Item>, roomNames: map<int, string>, names: map<int, DocLocation>,
      ghost s: State)
    returns (entries: seq<DocItem>)
    requires forall i :: i in rows ==> LocationExists(s, i.location)
    requires roomNames.Keys == s.rooms.Keys && forall id :: id in s.rooms ==> roomNames[id] == s.rooms[id].name
    requires names.Keys == s.containers.Keys
    requires forall id :: id in s.containers ==> names[id] == DocPlaceOf(s.rooms, s.containers, InContainer(id))
    ensures entries == DocItems(s.rooms, s.containers, rows)
  {
    entries := [];
    for i := 0 to |rows|
      invariant |entries| == i && forall k :: 0 <= k < i ==> entries[k] == DocItemOf(s.rooms, s.containers, rows[k])
    {
      var item := rows[i];
      assert item in rows;
      var place := DocLocation(item.location.kind, "", "");
      if item.location.kind.RoomKind? {
        place := place.(room := roomNames[item.location.id]);
      } else {
        var container := names[item.location.id];
        place := place.(room := container.room, container := container.container);
      }
      entries := entries + [DocItem(item.name, item.description, item.quantity, item.notes, item.tags, item.aliases, place)];
    }
  }

  method Export(repos: Repos) returns (r: Outcome<Document>)
    requires Sound(repos.View())
    ensures r.Ok? && IsExport(repos.View(), r.value)
  {
    var rooms := repos.ListRooms();
    var containers := repos.ListContainers();
    var items := repos.ListItems();
    ghost var s := repos.View();
    SoundRows(s);
    ListedRefs(s, containers, items);
    var roomNames, docRooms := NameRooms(rooms, s.rooms);
    var names := NameContainers(containers, roomNames, s.rooms, s.containers);
    var docContainers := ContainerEntries(containers, roomNames, names, s.rooms, s.containers);
    var ordered := OrderContainers(docContainers);
    if ordered.Err? {
      ExportOrders(s, containers);
      assert false;
    }
    var docItems := ItemEntries(items, roomNames, names, s);
    var doc := Document(FORMAT, VERSION, StableSort(docRooms, RoomOrder), ordered.value, StableSort(docItems, ItemOrder));
    assert ExportOf(s, rooms, containers, items) == Ok(doc);
    return Ok(doc);
  }

  /** Nothing a sound store lists points at something that is not there. */
  lemma ListedRefs(s: State, containers: seq<Container>, items: seq<Item>)
    requires Sound(s) && Lists(containers, s.containers) && Lists(items, s.items)
    ensures forall c :: c in containers ==> c.roomId in s.rooms && (c.parent.Some? ==> c.parent.value in s.containers)
    ensures forall i :: i in items ==> LocationExists(s, i.location)
  {
  }

  // ---- The order of an export ----------------------------------------------------------------

  /** Rooms are listed by name, ignoring ASCII case. */
  ghost predicate RoomsByName(rooms: seq<DocRoom>) {
    forall i, j :: 0 <= i < j < |rooms| ==> !Less(ScopeKey(rooms[j].name), ScopeKey(rooms[i].name))
  }

  /** Items are listed by name, ignoring ASCII case, and those of one name by their place. */
  ghost predicate ItemsByName(items: seq<DocItem>) {
    forall i, j :: 0 <= i < j < |items| ==> ItemsOrdered(items[i], items[j])
  }

  predicate ItemsOrdered(a: DocItem, b: DocItem) {
    var x, y := a.location, b.location;
    && !Less(ScopeKey(b.name), ScopeKey(a.name))
    && (ScopeKey(a.name) == ScopeKey(b.name) ==> !Less(KindText(y.kind), KindText(x.kind)))
    && (ScopeKey(a.name) == ScopeKey(b.name) && KindText(x.kind) == KindText(y.kind) ==> !Less(ScopeKey(y.room), ScopeKey(x.room)))
    && (ScopeKey(a.name) == ScopeKey(b.name) && KindText(x.kind) == KindText(y.kind) && ScopeKey(x.room) == ScopeKey(y.room) ==>
      !Less(ScopeKey(y.container), ScopeKey(x.container)))
  }

  lemma RoomsSortedByName(rows: seq<DocRoom>)
    ensures RoomsByName(StableSort(rows, RoomOrder))
  {
    hide ScopeKey, Less, KeyLess;
    var sorted := StableSort(rows, RoomOrder);
    SortSorted(rows, RoomOrder);
    forall i, j | 0 <= i < j < |sorted| ensures !Less(ScopeKey(sorted[j].name), ScopeKey(sorted[i].name)) {
      PartsInOrder(RoomOrder(sorted[i]), RoomOrder(sorted[j]), 0);
    }
  }

  lemma KeysOrderItems(a: DocItem, b: DocItem)
    requires !KeyLess(ItemOrder(b), ItemOrder(a))
    ensures ItemsOrdered(a, b)
  {
    hide ScopeKey, Less, KeyLess, KindText;
    var k, l := ItemOrder(a), ItemOrder(b);
    PartsInOrder(k, l, 0);
    if k[0] == l[0] {
      assert k[..1] == l[..1];
      PartsInOrder(k, l, 1);
      if k[1] == l[1] {
        assert k[..2] == l[..2];
        PartsInOrder(k, l, 2);
        if k[2] == l[2] {
          assert k[..3] == l[..3];
          PartsInOrder(k, l, 3);
        }
      }
    }
  }

  lemma ItemsSortedByName(rows: seq<DocItem>)
    ensures ItemsByName(StableSort(rows, ItemOrder))
  {
    hide KeyLess, ItemsOrdered;
    var sorted := StableSort(rows, ItemOrder);
    SortSorted(rows, ItemOrder);
    forall i, j | 0 <= i < j < |sorted| ensures ItemsOrdered(sorted[i], sorted[j]) {
      KeysOrderItems(sorted[i], sorted[j]);
    }
  }

  /** An export is in the current format and lists everything by name. */
  lemma ExportByName(s: State, doc: Document)
    requires IsExport(s, doc)
    ensures doc.format == "homey.export" && doc.version == 1
    ensures RoomsByName(doc.rooms) && ItemsByName(doc.items)
  {
    hide StableSort, Ordered, RoomsByName, ItemsByName, DocRooms, DocItems, DocContainers;
    var rooms, containers, items :|
      Lists(rooms, s.rooms) && Lists(containers, s.containers) && Lists(items, s.items)
      && ExportOf(s, rooms, containers, items) == Ok(doc);
    RoomsSortedByName(DocRooms(rooms));
    ItemsSortedByName(DocItems(s.rooms, s.containers, items));
  }
}
