/**
 An export carries the whole inventory: importing it into an empty instance gives
 the same names with the same meanings, and exporting again the same document.
 */
module BackupRoundTrip {
  import opened Sequences
  import opened Text
  import opened Sorting
  import opened Inventory
  import opened StoreModel
  import opened StoreInvariant
  import opened BackupDocument
  import opened BackupOrder
  import opened BackupNames
  import opened BackupImport
  import opened BackupOverlay
  import opened BackupCheck
  import opened BackupCycles
  import opened BackupExport

  function EntryOf(s: State, row: Row): Entry {
    match row
    case RoomRow(room) => RoomEntry(DocRoomOf(room))
    case ContainerRow(c) => ContainerEntry(DocContainerOf(s.rooms, s.containers, c))
    case ItemRow(i) => ItemEntry(DocItemOf(s.rooms, s.containers, i))
  }

  // ---- A row and its entry say the same -----------------------------------------------

  lemma PlaceWritten(rooms: Rooms, cs: Containers, place: Location)
    requires forall id :: id in cs ==> cs[id].roomId in rooms
    requires if place.kind.RoomKind? then place.id in rooms else place.kind.ContainerKind? && place.id in cs
    ensures var written := DocPlaceOf(rooms, cs, place);
      && written.kind == place.kind
      && (ScopeKey(written.room), ScopeKey(written.container)) == PlaceKey(rooms, cs, place)
      && (place.kind.RoomKind? ==> written.container == "")
  {
    ScopeKeyEmpty(DocPlaceOf(rooms, cs, place).container);
  }

  lemma RowRests(s: State, row: Row)
    requires Sound(s) && HasRow(s, row)
    ensures forall id :: id in s.containers ==> s.containers[id].roomId in s.rooms
    ensures match row {
      case RoomRow(room) => RoomAtRest(room)
      case ContainerRow(c) =>
        && ContainerAtRest(c)
        && (c.parent.Some? ==> c.parent.value in s.containers && ContainerAtRest(s.containers[c.parent.value]))
      case ItemRow(i) => ItemAtRest(i) && LocationExists(s, i.location)
    }
  {
    hide IsForest;
  }

  lemma EntrySaysRow(s: State, row: Row)
    requires Sound(s) && HasRow(s, row)
    ensures KeyOf(EntryOf(s, row)) == KeyOfRow(s, row)
    ensures FactsFrom(EntryOf(s, row)) == FactsOf(s.containers, row)
  {
    hide Sound, ValidRoom, ValidItem;
    RowRests(s, row);
    match row
    case RoomRow(room) =>
    case ContainerRow(c) =>
    case ItemRow(i) => PlaceWritten(s.rooms, s.containers, i.location);
  }

  // ---- What is in an export ---------------------------------------------------------------

  ghost predicate RoomsExported(s: State, doc: Document) {
    && Sorted(doc.rooms, RoomOrder) && Distinct(doc.rooms)
    && (forall e :: e in doc.rooms ==> exists room :: HasRow(s, RoomRow(room)) && e == DocRoomOf(room))
    && (forall room :: HasRow(s, RoomRow(room)) ==> DocRoomOf(room) in doc.rooms)
  }

  ghost predicate ContainersExported(s: State, doc: Document) {
    && Ordered(doc.containers) == Ok(doc.containers)
    && (forall e :: e in doc.containers ==>
      exists c :: HasRow(s, ContainerRow(c)) && e == DocContainerOf(s.rooms, s.containers, c))
    && (forall c :: HasRow(s, ContainerRow(c)) ==> DocContainerOf(s.rooms, s.containers, c) in doc.containers)
  }

  ghost predicate ItemsExported(s: State, doc: Document) {
    && Sorted(doc.items, ItemOrder) && Distinct(doc.items)
    && (forall e :: e in doc.items ==> exists i :: HasRow(s, ItemRow(i)) && e == DocItemOf(s.rooms, s.containers, i))
    && (forall i :: HasRow(s, ItemRow(i)) ==> DocItemOf(s.rooms, s.containers, i) in doc.items)
  }

  lemma RoomsAreExported(s: State, doc: Document, rows: seq<Room>)
    requires Sound(s) && Store.Lists(rows, s.rooms) && doc.rooms == StableSort(DocRooms(rows), RoomOrder)
    ensures RoomsExported(s, doc)
  {
    var entries := DocRooms(rows);
    SortSorted(entries, RoomOrder);
    SortPermutes(entries, RoomOrder);
    PermutedMembers(entries, doc.rooms);
    forall i, j | 0 <= i < j < |entries| ensures entries[i] != entries[j] {
      assert rows[i] in rows && rows[j] in rows;
      assert HasRow(s, RoomRow(rows[i])) && HasRow(s, RoomRow(rows[j]));
      if entries[i] == entries[j] {
        KeysApart(s, RoomRow(rows[i]), RoomRow(rows[j]));
      }
    }
    PermutedDistinct(entries, doc.rooms);
    forall e | e in doc.rooms ensures exists room :: HasRow(s, RoomRow(room)) && e == DocRoomOf(room) {
      assert e in entries;
      var i :| 0 <= i < |entries| && entries[i] == e;
      assert rows[i] in rows;
      assert HasRow(s, RoomRow(rows[i]));
    }
    forall room | HasRow(s, RoomRow(room)) ensures DocRoomOf(room) in doc.rooms {
      assert room in rows;
      var i :| 0 <= i < |rows| && rows[i] == room;
      assert entries[i] in entries;
    }
  }

  lemma ContainersAreExported(s: State, doc: Document, rows: seq<Container>)
    requires Sound(s) && Store.Lists(rows, s.containers)
    requires Ordered(DocContainers(s.rooms, s.containers, rows)) == Ok(doc.containers)
    ensures ContainersExported(s, doc)
  {
    var entries := DocContainers(s.rooms, s.containers, rows);
    OrderedPermutes(entries);
    OrderedForgetsOrder(doc.containers, entries);
    PermutedMembers(doc.containers, entries);
    forall e | e in doc.containers
      ensures exists c :: HasRow(s, ContainerRow(c)) && e == DocContainerOf(s.rooms, s.containers, c)
    {
      assert e in entries;
      var i :| 0 <= i < |entries| && entries[i] == e;
      RowOf(s, rows, i);
      assert HasRow(s, ContainerRow(rows[i]));
    }
    forall c | HasRow(s, ContainerRow(c)) ensures DocContainerOf(s.rooms, s.containers, c) in doc.containers {
      assert c in rows;
      var i :| 0 <= i < |rows| && rows[i] == c;
      assert entries[i] in entries;
    }
  }

  lemma ItemEntriesApart(s: State, rows: seq<Item>)
    requires Sound(s) && Store.Lists(rows, s.items)
    ensures Distinct(DocItems(s.rooms, s.containers, rows))
  {
    hide RoomsSound, ContainersSound, ItemAtRest, LocationExists, DocItemOf;
    var entries := DocItems(s.rooms, s.containers, rows);
    forall i, j | 0 <= i < j < |entries| ensures entries[i] != entries[j] {
      assert rows[i] in rows && rows[j] in rows;
      if entries[i] == entries[j] {
        EntrySaysRow(s, ItemRow(rows[i]));
        EntrySaysRow(s, ItemRow(rows[j]));
        KeysApart(s, ItemRow(rows[i]), ItemRow(rows[j]));
      }
    }
  }

  lemma ItemsAreExported(s: State, doc: Document, rows: seq<Item>)
    requires Sound(s) && Store.Lists(rows, s.items)
    requires doc.items == StableSort(DocItems(s.rooms, s.containers, rows), ItemOrder)
    ensures ItemsExported(s, doc)
  {
    hide RoomsSound, ContainersSound, ItemAtRest, LocationExists, DocItemOf, ItemNamesUnique, KeyLess;
    var entries := DocItems(s.rooms, s.containers, rows);
    SortSorted(entries, ItemOrder);
    SortPermutes(entries, ItemOrder);
    PermutedMembers(entries, doc.items);
    ItemEntriesApart(s, rows);
    PermutedDistinct(entries, doc.items);
    forall e | e in doc.items ensures exists i :: HasRow(s, ItemRow(i)) && e == DocItemOf(s.rooms, s.containers, i) {
      assert e in entries;
      var i :| 0 <= i < |entries| && entries[i] == e;
      assert rows[i] in rows;
      assert HasRow(s, ItemRow(rows[i]));
    }
    forall row | HasRow(s, ItemRow(row)) ensures DocItemOf(s.rooms, s.containers, row) in doc.items {
      assert row in rows;
      var i :| 0 <= i < |rows| && rows[i] == row;
      assert entries[i] in entries;
    }
  }

  ghost predicate Exported(s: State, doc: Document) {
    && doc.format == FORMAT && doc.version == VERSION
    && RoomsExported(s, doc) && ContainersExported(s, doc) && ItemsExported(s, doc)
  }

  lemma ExportIsExported(s: State, doc: Document)
    requires Sound(s) && IsExport(s, doc)
    ensures Exported(s, doc)
  {
    var rooms, containers, items :|
      Store.Lists(rooms, s.rooms) && Store.Lists(containers, s.containers) && Store.Lists(items, s.items)
      && ExportOf(s, rooms, containers, items) == Ok(doc);
    RoomsAreExported(s, doc, rooms);
    ContainersAreExported(s, doc, containers);
    ItemsAreExported(s, doc, items);
  }

  // ---- An export is a document any sound store accepts -----------------------------------

  lemma EntryHasRow(s: State, doc: Document, i: int) returns (row: Row)
    requires Sound(s) && Exported(s, doc) && 0 <= i < |Script(doc)|
    ensures HasRow(s, row) && Script(doc)[i] == EntryOf(s, row)
  {
    ScriptAt(doc.rooms, doc.containers, doc.items, i);
    match Script(doc)[i]
    case RoomEntry(e) =>
      assert e in doc.rooms;
      var room :| HasRow(s, RoomRow(room)) && e == DocRoomOf(room);
      row := RoomRow(room);
    case ContainerEntry(e) =>
      assert e in doc.containers;
      var c :| HasRow(s, ContainerRow(c)) && e == DocContainerOf(s.rooms, s.containers, c);
      row := ContainerRow(c);
    case ItemEntry(e) =>
      assert e in doc.items;
      var item :| HasRow(s, ItemRow(item)) && e == DocItemOf(s.rooms, s.containers, item);
      row := ItemRow(item);
  }

  lemma RowHasEntry(s: State, doc: Document, row: Row) returns (i: int)
    requires Sound(s) && Exported(s, doc) && HasRow(s, row)
    ensures 0 <= i < |Script(doc)| && Script(doc)[i] == EntryOf(s, row)
  {
    hide Sound, ScriptOf, ContainerAtRest;
    match row
    case RoomRow(room) =>
      i :| 0 <= i < |doc.rooms| && doc.rooms[i] == DocRoomOf(room);
      ScriptAt(doc.rooms, doc.containers, doc.items, i);
    case ContainerRow(c) =>
      var k :| 0 <= k < |doc.containers| && doc.containers[k] == DocContainerOf(s.rooms, s.containers, c);
      i := |doc.rooms| + k;
      ScriptAt(doc.rooms, doc.containers, doc.items, i);
    case ItemRow(item) =>
      var k :| 0 <= k < |doc.items| && doc.items[k] == DocItemOf(s.rooms, s.containers, item);
      i := |doc.rooms| + |doc.containers| + k;
      ScriptAt(doc.rooms, doc.containers, doc.items, i);
  }

  lemma ExportRoomsAccepted(s: State, doc: Document)
    requires Sound(s) && Exported(s, doc)
    ensures RoomsAccepted(doc.rooms)
  {
    forall i | 0 <= i < |doc.rooms| ensures ValidRoom(RoomTarget(doc.rooms[i])) {
      assert doc.rooms[i] in doc.rooms;
      var room :| HasRow(s, RoomRow(room)) && doc.rooms[i] == DocRoomOf(room);
      assert RoomAtRest(room);
    }
    forall i, j | 0 <= i < j < |doc.rooms| ensures KeyOf(RoomEntry(doc.rooms[i])) != KeyOf(RoomEntry(doc.rooms[j])) {
      assert doc.rooms[i] in doc.rooms && doc.rooms[j] in doc.rooms;
      var a :| HasRow(s, RoomRow(a)) && doc.rooms[i] == DocRoomOf(a);
      var b :| HasRow(s, RoomRow(b)) && doc.rooms[j] == DocRoomOf(b);
      EntriesApart(s, RoomRow(a), RoomRow(b));
    }
  }

  lemma EntriesApart(s: State, a: Row, b: Row)
    requires Sound(s) && HasRow(s, a) && HasRow(s, b)
    ensures KeyOf(EntryOf(s, a)) == KeyOf(EntryOf(s, b)) ==> a == b
  {
    EntrySaysRow(s, a);
    EntrySaysRow(s, b);
    if KeyOf(EntryOf(s, a)) == KeyOf(EntryOf(s, b)) {
      KeysApart(s, a, b);
    }
  }

  lemma DocItemsApart(s: State, a: Item, b: Item)
    requires Sound(s) && HasRow(s, ItemRow(a)) && HasRow(s, ItemRow(b))
    ensures DocItemKey(DocItemOf(s.rooms, s.containers, a)) == DocItemKey(DocItemOf(s.rooms, s.containers, b)) ==> a == b
  {
    EntriesApart(s, ItemRow(a), ItemRow(b));
  }

  lemma ExportItemKeysDistinct(s: State, doc: Document)
    requires Sound(s) && Exported(s, doc)
    ensures ItemKeysDistinct(doc.items)
  {
    hide Sound, DocItemOf, DocItemKey;
    forall i, j | 0 <= i < j < |doc.items| ensures DocItemKey(doc.items[i]) != DocItemKey(doc.items[j]) {
      assert doc.items[i] in doc.items && doc.items[j] in doc.items;
      var a :| HasRow(s, ItemRow(a)) && doc.items[i] == DocItemOf(s.rooms, s.containers, a);
      var b :| HasRow(s, ItemRow(b)) && doc.items[j] == DocItemOf(s.rooms, s.containers, b);
      DocItemsApart(s, a, b);
    }
  }

  /** The room of a row is among the rooms of the export. */
  lemma RoomKnown(s: State, into: State, doc: Document, id: int)
    requires Sound(s) && Sound(into) && Exported(s, doc) && id in s.rooms
    ensures KnownRoom(into, doc, ScopeKey(s.rooms[id].name))
  {
    var row := RoomRow(s.rooms[id]);
    assert HasRow(s, row);
    EntrySaysRow(s, row);
    assert DocRoomOf(s.rooms[id]) in doc.rooms;
    var i :| 0 <= i < |doc.rooms| && doc.rooms[i] == DocRoomOf(s.rooms[id]);
    assert KeyOf(RoomEntry(doc.rooms[i])) == RoomName(ScopeKey(s.rooms[id].name));
  }

  lemma ContainerKnown(s: State, into: State, doc: Document, id: int)
    requires Sound(s) && Sound(into) && Exported(s, doc) && id in s.containers
    ensures var c := s.containers[id];
      c.roomId in s.rooms && KnownContainer(into, doc, ContainerKey(ScopeKey(s.rooms[c.roomId].name), ScopeKey(c.name)))
    ensures exists j :: 0 <= j < |doc.containers| && ContainerName(EntryKey(doc.containers[j])) == KeyOfContainer(s.rooms, s.containers[id])
  {
    var c := s.containers[id];
    assert HasRow(s, ContainerRow(c));
    DocContainerKey(s, c);
    assert DocContainerOf(s.rooms, s.containers, c) in doc.containers;
    var j :| 0 <= j < |doc.containers| && doc.containers[j] == DocContainerOf(s.rooms, s.containers, c);
    assert EntryKey(doc.containers[j]) == ContainerKey(ScopeKey(s.rooms[c.roomId].name), ScopeKey(c.name));
  }

  lemma ExportContainerAccepted(s: State, into: State, doc: Document, c: Container)
    requires Sound(s) && Sound(into) && Exported(s, doc) && HasRow(s, ContainerRow(c))
    ensures ContainerAccepted(into, doc, DocContainerOf(s.rooms, s.containers, c))
  {
    var e := DocContainerOf(s.rooms, s.containers, c);
    assert ContainerAtRest(c) && c.roomId in s.rooms;
    RoomKnown(s, into, doc, c.roomId);
    if c.parent.Some? {
      ContainerKnown(s, into, doc, c.parent.value);
      ParentNameApart(s, c);
    }
  }

  lemma ParentNameApart(s: State, c: Container)
    requires Sound(s) && HasRow(s, ContainerRow(c)) && c.parent.Some?
    ensures c.parent.value in s.containers && s.containers[c.parent.value].roomId == c.roomId
    ensures ScopeKey(s.containers[c.parent.value].name) != ScopeKey(c.name)
  {
    var parent := s.containers[c.parent.value];
    assert ContainerAtRest(c);
    assert !SameRoomAndName(parent, c);
  }

  lemma ExportItemAccepted(s: State, into: State, doc: Document, i: Item)
    requires Sound(s) && Sound(into) && Exported(s, doc) && HasRow(s, ItemRow(i))
    ensures ItemAccepted(into, doc, DocItemOf(s.rooms, s.containers, i))
  {
    assert ItemAtRest(i) && LocationExists(s, i.location);
    PlaceWritten(s.rooms, s.containers, i.location);
    if i.location.kind.RoomKind? {
      RoomKnown(s, into, doc, i.location.id);
    } else {
      ContainerKnown(s, into, doc, i.location.id);
    }
    ExportItemValid(s, i);
  }

  lemma ExportItemValid(s: State, i: Item)
    requires ItemAtRest(i) && LocationExists(s, i.location)
    ensures var e := DocItemOf(s.rooms, s.containers, i); ValidItem(ItemTarget(e, Location(e.location.kind, 1)))
  {
  }

  /** Any sound store accepts an export of any sound store. */
  lemma ExportAccepted(s: State, into: State, doc: Document)
    requires Sound(s) && Sound(into) && Exported(s, doc)
    ensures Accepts(into, doc)
  {
    ExportRoomsAccepted(s, doc);
    ExportItemKeysDistinct(s, doc);
    forall i | 0 <= i < |doc.containers| ensures ContainerAccepted(into, doc, doc.containers[i]) {
      assert doc.containers[i] in doc.containers;
      var c :| HasRow(s, ContainerRow(c)) && doc.containers[i] == DocContainerOf(s.rooms, s.containers, c);
      ExportContainerAccepted(s, into, doc, c);
    }
    forall i | 0 <= i < |doc.items| ensures ItemAccepted(into, doc, doc.items[i]) {
      assert doc.items[i] in doc.items;
      var item :| HasRow(s, ItemRow(item)) && doc.items[i] == DocItemOf(s.rooms, s.containers, item);
      ExportItemAccepted(s, into, doc, item);
    }
  }

  lemma ExportCanonical(s: State, doc: Document)
    requires Sound(s) && Exported(s, doc)
    ensures Canonical(doc)
  {
    forall e | e in doc.containers ensures Trim(e.name) == e.name {
      var c :| HasRow(s, ContainerRow(c)) && e == DocContainerOf(s.rooms, s.containers, c);
      assert ContainerAtRest(c);
    }
    forall e | e in doc.items
      ensures (e.location.kind.RoomKind? ==> e.location.container == "")
        && StoredLabels(TrimAll(e.tags)) == TrimAll(e.tags) && StoredLabels(TrimAll(e.aliases)) == TrimAll(e.aliases)
    {
      var i :| HasRow(s, ItemRow(i)) && e == DocItemOf(s.rooms, s.containers, i);
      assert ItemAtRest(i);
      PlaceWritten(s.rooms, s.containers, i.location);
    }
  }

  lemma ExportClosed(s: State, doc: Document)
    requires Sound(s) && Exported(s, doc)
    ensures Closed(doc)
  {
    forall i | 0 <= i < |doc.containers| && doc.containers[i].parent != ""
      ensures exists j :: 0 <= j < |doc.containers| && EntryKey(doc.containers[j]) == ParentKey(doc.containers[i])
    {
      assert doc.containers[i] in doc.containers;
      var c :| HasRow(s, ContainerRow(c)) && doc.containers[i] == DocContainerOf(s.rooms, s.containers, c);
      ParentNameApart(s, c);
      ContainerKnown(s, s, doc, c.parent.value);
    }
  }

  lemma ExportNamesDistinct(s: State, doc: Document)
    requires Sound(s) && Exported(s, doc)
    ensures NamesDistinct(Script(doc))
  {
    ExportRoomsAccepted(s, doc);
    ExportItemKeysDistinct(s, doc);
    ScriptNamesDistinct(doc.rooms, doc.containers, doc.items);
  }

  lemma ExportSaysNoMore(s: State, doc: Document, key: NameKey)
    requires Sound(s) && Exported(s, doc) && key in DocView(Script(doc))
    ensures key in View(s) && DocView(Script(doc))[key] == View(s)[key]
  {
    var script := Script(doc);
    ExportNamesDistinct(s, doc);
    DocViewMentions(script, key);
    var i :| 0 <= i < |script| && KeyOf(script[i]) == key;
    DocViewAt(script, i);
    var row := EntryHasRow(s, doc, i);
    EntrySaysRow(s, row);
    ViewKnowsWorld(s, key);
  }

  lemma ExportSaysNoLess(s: State, doc: Document, key: NameKey)
    requires Sound(s) && Exported(s, doc) && key in View(s)
    ensures key in DocView(Script(doc))
  {
    ViewKnowsWorld(s, key);
    var row := World(s)[key];
    EntrySaysRow(s, row);
    var i := RowHasEntry(s, doc, row);
    DocViewMentions(Script(doc), key);
  }

  lemma SameViews(a: NameView, b: NameView)
    requires forall key :: key in a ==> key in b && a[key] == b[key]
    requires forall key :: key in b ==> key in a
    ensures a == b
  {
  }

  /** What an export says is what the inventory says. */
  lemma ExportSaysView(s: State, doc: Document)
    requires Sound(s) && Exported(s, doc)
    ensures DocView(Script(doc)) == View(s)
  {
    forall key | key in DocView(Script(doc)) ensures key in View(s) && DocView(Script(doc))[key] == View(s)[key] {
      ExportSaysNoMore(s, doc, key);
    }
    forall key | key in View(s) ensures key in DocView(Script(doc)) {
      ExportSaysNoLess(s, doc, key);
    }
    SameViews(DocView(Script(doc)), View(s));
  }

  // ---- Equal names, equal exports -------------------------------------------------------

  function RoomNamed(view: NameView, key: string): string {
    if RoomName(key) in view && view[RoomName(key)].RoomFacts? then view[RoomName(key)].name else ""
  }

  function ContainerNamed(view: NameView, key: ContainerKey): string {
    if ContainerName(key) in view && view[ContainerName(key)].ContainerFacts? then view[ContainerName(key)].name else ""
  }

  function PlaceNamedBy(view: NameView, key: ItemKey): DocLocation {
    DocLocation(key.kind, RoomNamed(view, key.room),
      if key.kind.ContainerKind? then ContainerNamed(view, ContainerKey(key.room, key.container)) else "")
  }

  /** The entry of a name, read off the names alone. */
  function EntryRead(view: NameView, key: NameKey): Entry
    requires key in view
  {
    match (key, view[key])
    case (RoomName(_), RoomFacts(name, description)) => RoomEntry(DocRoom(name, description))
    case (ContainerName(k), ContainerFacts(name, description, parent)) =>
      ContainerEntry(DocContainer(RoomNamed(view, k.room),
        if parent.None? then "" else ContainerNamed(view, ContainerKey(k.room, parent.value)), name, description))
    case (ItemName(k), ItemFacts(name, description, quantity, notes, tags, aliases)) =>
      ItemEntry(DocItem(name, description, quantity, notes, tags, aliases, PlaceNamedBy(view, k)))
    case _ => RoomEntry(DocRoom("", ""))
  }

  lemma RoomReadsOff(s: State, id: int)
    requires Sound(s) && id in s.rooms
    ensures RoomNamed(View(s), RoomKey(s.rooms, id)) == s.rooms[id].name
  {
    assert HasRow(s, RoomRow(s.rooms[id]));
    ViewKnowsWorld(s, KeyOfRoom(s.rooms[id]));
    assert World(s)[KeyOfRoom(s.rooms[id])] == RoomRow(s.rooms[id]);
  }

  lemma ContainerReadsOff(s: State, id: int)
    requires Sound(s) && id in s.containers
    ensures ContainerNamed(View(s), ContainerKey(RoomKey(s.rooms, s.containers[id].roomId), ScopeKey(s.containers[id].name)))
      == s.containers[id].name
  {
    var row := ContainerRow(s.containers[id]);
    assert HasRow(s, row);
    ViewKnowsWorld(s, KeyOfRow(s, row));
    assert World(s)[KeyOfRow(s, row)] == row;
  }

  lemma EntryReadsOff(s: State, row: Row)
    requires Sound(s) && HasRow(s, row)
    ensures KeyOfRow(s, row) in View(s) && EntryRead(View(s), KeyOfRow(s, row)) == EntryOf(s, row)
  {
    ViewKnowsWorld(s, KeyOfRow(s, row));
    match row
    case RoomRow(room) =>
    case ContainerRow(c) => ContainerEntryReadsOff(s, c);
    case ItemRow(i) => ItemEntryReadsOff(s, i);
  }

  lemma ContainerEntryReadsOff(s: State, c: Container)
    requires Sound(s) && HasRow(s, ContainerRow(c))
    ensures var key := KeyOfContainer(s.rooms, c);
      key in View(s) && EntryRead(View(s), key) == EntryOf(s, ContainerRow(c))
  {
    ViewKnowsWorld(s, KeyOfRow(s, ContainerRow(c)));
    RoomReadsOff(s, c.roomId);
    if c.parent.Some? {
      assert s.containers[c.parent.value].roomId == c.roomId;
      ContainerReadsOff(s, c.parent.value);
    }
  }

  lemma ItemEntryReadsOff(s: State, i: Item)
    requires Sound(s) && HasRow(s, ItemRow(i))
    ensures var key := KeyOfItem(s.rooms, s.containers, i);
      key in View(s) && EntryRead(View(s), key) == EntryOf(s, ItemRow(i))
  {
    hide RoomsSound, ContainerAtRest, ParentsSound, IsForest, ContainerNamesUnique, ItemAtRest, ItemNamesUnique;
    ViewKnowsWorld(s, KeyOfRow(s, ItemRow(i)));
    if i.location.kind.RoomKind? {
      RoomReadsOff(s, i.location.id);
    } else {
      RoomReadsOff(s, s.containers[i.location.id].roomId);
      ContainerReadsOff(s, i.location.id);
    }
  }

  lemma SameEntry(s: State, t: State, row: Row) returns (other: Row)
    requires Sound(s) && Sound(t) && View(s) == View(t) && HasRow(s, row)
    ensures HasRow(t, other) && EntryOf(t, other) == EntryOf(s, row)
  {
    var key := KeyOfRow(s, row);
    EntryReadsOff(s, row);
    ViewKnowsWorld(t, key);
    other := World(t)[key];
    assert HasRow(t, other) && KeyOfRow(t, other) == key;
    EntryReadsOff(t, other);
  }

  lemma RoomsCarryOver(s: State, d: Document, t: State, e: Document)
    requires Sound(s) && Sound(t) && View(s) == View(t) && RoomsExported(s, d) && RoomsExported(t, e)
    ensures forall r :: r in d.rooms ==> r in e.rooms
  {
    forall r | r in d.rooms ensures r in e.rooms {
      var room :| HasRow(s, RoomRow(room)) && r == DocRoomOf(room);
      var other := SameEntry(s, t, RoomRow(room));
    }
  }

  lemma ContainersCarryOver(s: State, d: Document, t: State, e: Document)
    requires Sound(s) && Sound(t) && View(s) == View(t) && ContainersExported(s, d) && ContainersExported(t, e)
    ensures forall c :: c in d.containers ==> c in e.containers
  {
    forall r | r in d.containers ensures r in e.containers {
      var c :| HasRow(s, ContainerRow(c)) && r == DocContainerOf(s.rooms, s.containers, c);
      var other := SameEntry(s, t, ContainerRow(c));
    }
  }

  lemma ItemsCarryOver(s: State, d: Document, t: State, e: Document)
    requires Sound(s) && Sound(t) && View(s) == View(t) && ItemsExported(s, d) && ItemsExported(t, e)
    ensures forall i :: i in d.items ==> i in e.items
  {
    forall r | r in d.items ensures r in e.items {
      var i :| HasRow(s, ItemRow(i)) && r == DocItemOf(s.rooms, s.containers, i);
      var other := SameEntry(s, t, ItemRow(i));
    }
  }

  lemma RoomOrderTellsApart(s: State, d: Document)
    requires Sound(s) && Exported(s, d)
    ensures KeysTellApart(d.rooms, RoomOrder)
  {
    forall i, j | 0 <= i < |d.rooms| && 0 <= j < |d.rooms| && RoomOrder(d.rooms[i]) == RoomOrder(d.rooms[j])
      ensures d.rooms[i] == d.rooms[j]
    {
      assert RoomOrder(d.rooms[i])[1] == RoomOrder(d.rooms[j])[1];
      ExportRoomsAccepted(s, d);
      assert KeyOf(RoomEntry(d.rooms[i])) == KeyOf(RoomEntry(d.rooms[j]));
    }
  }

  lemma ItemOrderTellsApart(s: State, d: Document)
    requires Sound(s) && Exported(s, d)
    ensures KeysTellApart(d.items, ItemOrder)
  {
    forall i, j | 0 <= i < |d.items| && 0 <= j < |d.items| && ItemOrder(d.items[i]) == ItemOrder(d.items[j])
      ensures d.items[i] == d.items[j]
    {
      assert d.items[i] in d.items && d.items[j] in d.items;
      var a :| HasRow(s, ItemRow(a)) && d.items[i] == DocItemOf(s.rooms, s.containers, a);
      var b :| HasRow(s, ItemRow(b)) && d.items[j] == DocItemOf(s.rooms, s.containers, b);
      SameOrderSameItem(s, a, b);
    }
  }

  lemma SameOrderSameItem(s: State, a: Item, b: Item)
    requires Sound(s) && HasRow(s, ItemRow(a)) && HasRow(s, ItemRow(b))
    requires ItemOrder(DocItemOf(s.rooms, s.containers, a)) == ItemOrder(DocItemOf(s.rooms, s.containers, b))
    ensures a == b
  {
    var x, y := DocItemOf(s.rooms, s.containers, a), DocItemOf(s.rooms, s.containers, b);
    PlaceWritten(s.rooms, s.containers, a.location);
    PlaceWritten(s.rooms, s.containers, b.location);
    OrderDecides(x, y);
    DocItemsApart(s, a, b);
  }

  lemma OrderDecides(x: DocItem, y: DocItem)
    requires ItemOrder(x) == ItemOrder(y)
    requires !x.location.kind.OtherKind? && !y.location.kind.OtherKind?
    ensures DocItemKey(x) == DocItemKey(y)
  {
    var p, q := ItemOrder(x), ItemOrder(y);
    assert p[0] == q[0] && p[1] == q[1] && p[2] == q[2] && p[3] == q[3] && p[4] == q[4];
    assert |"room"| != |"container"|;
  }

  /** Two instances that hold the same inventory produce the same document. */
  lemma ExportsAgree(s: State, d: Document, t: State, e: Document)
    requires Sound(s) && Sound(t) && View(s) == View(t)
    requires Exported(s, d) && Exported(t, e)
    ensures d == e
  {
    RoomsCarryOver(s, d, t, e);
    RoomsCarryOver(t, e, s, d);
    SameMembersPermute(d.rooms, e.rooms);
    RoomOrderTellsApart(s, d);
    SortedUnique(d.rooms, e.rooms, RoomOrder);
    ContainersAgree(s, d, t, e);
    ItemsCarryOver(s, d, t, e);
    ItemsCarryOver(t, e, s, d);
    SameMembersPermute(d.items, e.items);
    ItemOrderTellsApart(s, d);
    SortedUnique(d.items, e.items, ItemOrder);
  }

  lemma ContainersAgree(s: State, d: Document, t: State, e: Document)
    requires Sound(s) && Sound(t) && View(s) == View(t)
    requires ContainersExported(s, d) && ContainersExported(t, e)
    ensures d.containers == e.containers
  {
    ContainersCarryOver(s, d, t, e);
    ContainersCarryOver(t, e, s, d);
    KeysDistinctDistinct(d.containers);
    KeysDistinctDistinct(e.containers);
    SameMembersPermute(d.containers, e.containers);
    OrderedForgetsOrder(d.containers, e.containers);
  }

  // ---- The round trip -----------------------------------------------------------------------

  lemma NothingIndexed(world: map<NameKey, Row>)
    requires Indexes(world, EMPTY)
    ensures world == map[]
  {
    assert forall row :: !HasRow(EMPTY, row);
    assert forall key :: key !in world;
  }

  lemma EmptyView()
    ensures Sound(EMPTY) && View(EMPTY) == map[]
  {
    EmptySound();
    NothingIndexed(World(EMPTY));
  }

  lemma AllCreated(script: seq<Entry>, fates: seq<Fate>)
    requires FatesFrom(map[], script, 0, fates)
    ensures forall i :: 0 <= i < |fates| ==> fates[i].Created?
  {
    forall i | 0 <= i < |fates| ensures fates[i].Created? {
      assert fates[i - 0] == EntryFate(map[], script[i]);
    }
  }

  lemma OverNothing(view: NameView)
    ensures map[] + view == view
  {
  }

  lemma ExportRuns(s: State, doc: Document)
    requires Sound(s) && Sound(EMPTY) && Exported(s, doc)
    ensures Accepts(EMPTY, doc) && Runnable(View(EMPTY), Script(doc)) && ClosedScript(Script(doc))
  {
    ExportAccepted(s, EMPTY, doc);
    ExportCanonical(s, doc);
    ExportClosed(s, doc);
    AcceptedRunnable(EMPTY, doc);
    ClosedIsClosedScript(doc);
  }

  lemma ImportedSame(s: State, doc: Document)
    requires Sound(s) && Sound(EMPTY) && Exported(s, doc)
    ensures var r := ApplyEntries(EMPTY, Script(doc));
      && r.error.None? && View(r.state) == View(s)
      && |r.fates| == |Script(doc)| && (forall i :: 0 <= i < |r.fates| ==> r.fates[i].Created?)
  {
    EmptyView();
    ExportRuns(s, doc);
    ImportOverlays(EMPTY, Script(doc));
    ClosedNeverCircular(EMPTY, Script(doc));
    WholeScript(map[], Script(doc));
    ExportSaysView(s, doc);
    OverNothing(View(s));
    AllCreated(Script(doc), ApplyEntries(EMPTY, Script(doc)).fates);
  }

  /**
   Importing an export into an empty instance succeeds with everything created, the
   names mean what they meant, and exporting again gives the same document.
   */
  lemma RoundTrip(s: State, doc: Document)
    requires Sound(s) && IsExport(s, doc)
    ensures Sound(EMPTY) && Accepts(EMPTY, doc)
    ensures var r := ApplyEntries(EMPTY, Script(doc));
      && r.error.None? && View(r.state) == View(s)
      && |r.fates| == |Script(doc)| && (forall i :: 0 <= i < |r.fates| ==> r.fates[i].Created?)
      && (forall again :: IsExport(r.state, again) ==> again == doc)
  {
    EmptyView();
    ExportIsExported(s, doc);
    ExportRuns(s, doc);
    ImportedSame(s, doc);
    var t := ApplyEntries(EMPTY, Script(doc)).state;
    forall again | IsExport(t, again) ensures again == doc {
      ExportIsExported(t, again);
      ExportsAgree(s, doc, t, again);
    }
  }
}
