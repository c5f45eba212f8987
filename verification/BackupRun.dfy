/**
 Import as it runs: the listings are read into a world of names, the whole document
 is checked against it, and then entry after entry is written while the world is kept
 in step with the store.
 */
module BackupRun {
  import opened Text
  import opened Inventory
  import opened StoreModel
  import opened StoreInvariant
  import opened Store
  import opened BackupDocument
  import opened BackupNames
  import opened BackupImport
  import opened BackupOverlay
  import opened BackupCheck
  import opened BackupWorld
  import opened BackupApply

  // ---- Reading the listings --------------------------------------------------------------

  ghost predicate NamesRooms(names: map<int, string>, s: State) {
    && (forall id :: id in s.rooms ==> id in names)
    && (forall id :: id in names ==> id in s.rooms && names[id] == s.rooms[id].name)
  }

  ghost predicate NamesContainer(name: DocLocation, id: int, s: State) {
    && id in s.containers && s.containers[id].roomId in s.rooms
    && name == DocLocation(ContainerKind, s.rooms[s.containers[id].roomId].name, s.containers[id].name)
  }

  ghost predicate NamesContainers(names: map<int, DocLocation>, s: State) {
    && (forall id :: id in s.containers ==> id in names)
    && (forall id :: id in names ==> NamesContainer(names[id], id, s))
  }

  method LoadRooms(rows: seq<Room>, ghost s: State) returns (rooms: RoomMap, names: map<int, string>)
    requires Sound(s) && Lists(rows, s.rooms)
    ensures RoomsInStep(rooms, World(s))
    ensures NamesRooms(names, s)
  {
    hide Sound;
    ghost var world := World(s);
    SoundRows(s);
    rooms, names := map[], map[];
    for i := 0 to |rows|
      invariant forall k :: k in rooms ==> RoomName(k) in world && world[RoomName(k)] == RoomRow(rooms[k])
      invariant forall j :: 0 <= j < i ==> ScopeKey(rows[j].name) in rooms && rows[j].id in names
      invariant forall id :: id in names ==> id in s.rooms && names[id] == s.rooms[id].name
    {
      assert rows[i] in rows;
      assert HasRow(s, RoomRow(rows[i]));
      rooms := rooms[ScopeKey(rows[i].name) := rows[i]];
      names := names[rows[i].id := rows[i].name];
    }
    forall id | id in s.rooms ensures id in names {
      assert s.rooms[id] in rows;
    }
    forall key | key in world && key.RoomName? ensures key.name in rooms {
      assert HasRow(s, world[key]) && world[key].room in rows;
    }
  }

  method LoadContainers(rows: seq<Container>, roomNames: map<int, string>, ghost s: State)
    returns (containers: ContainerMap, names: map<int, DocLocation>)
    requires Sound(s) && Lists(rows, s.containers)
    requires NamesRooms(roomNames, s)
    ensures ContainersInStep(containers, World(s))
    ensures NamesContainers(names, s)
  {
    hide Sound;
    ghost var world := World(s);
    SoundRows(s);
    containers, names := map[], map[];
    for i := 0 to |rows|
      invariant forall k :: k in containers ==> ContainerName(k) in world && world[ContainerName(k)] == ContainerRow(containers[k])
      invariant forall j :: 0 <= j < i ==> rows[j].id in names
      invariant forall j :: 0 <= j < i ==>
        ContainerKey(RoomKey(s.rooms, rows[j].roomId), ScopeKey(rows[j].name)) in containers
      invariant forall id :: id in names ==> NamesContainer(names[id], id, s)
    {
      assert rows[i] in rows;
      assert HasRow(s, ContainerRow(rows[i]));
      var room := roomNames[rows[i].roomId];
      containers := containers[ContainerKey(ScopeKey(room), ScopeKey(rows[i].name)) := rows[i]];
      names := names[rows[i].id := DocLocation(ContainerKind, room, rows[i].name)];
    }
    forall id | id in s.containers ensures id in names {
      assert s.containers[id] in rows;
    }
    forall key | key in world && key.ContainerName? ensures key.key in containers {
      assert HasRow(s, world[key]) && KeyOfRow(s, world[key]) == key && world[key].container in rows;
    }
  }

  /** The key of a stored item: the names of its place, and its own. */
  method KeyOfLocation(item: Item, roomNames: map<int, string>, names: map<int, DocLocation>, ghost s: State)
    returns (r: Outcome<ItemKey>)
    requires NamesRooms(roomNames, s)
    requires NamesContainers(names, s)
    ensures r.Ok? <==> LocationExists(s, item.location)
    ensures r.Ok? ==> ItemName(r.value) == KeyOfItem(s.rooms, s.containers, item)
    ensures r.Err? ==> r.error == Broken
  {
    var key := ItemKey(item.location.kind, "", "", ScopeKey(item.name));
    match item.location.kind
    case RoomKind =>
      if item.location.id !in roomNames {
        return Err(Broken);
      }
      return Ok(key.(room := ScopeKey(roomNames[item.location.id])));
    case ContainerKind =>
      if item.location.id !in names {
        return Err(Broken);
      }
      var place := names[item.location.id];
      return Ok(key.(room := ScopeKey(place.room), container := ScopeKey(place.container)));
    case OtherKind(_) =>
      return Err(Broken);
  }

  method LoadItems(rows: seq<Item>, roomNames: map<int, string>, names: map<int, DocLocation>, ghost s: State)
    returns (items: ItemMap)
    requires Sound(s) && Lists(rows, s.items)
    requires NamesRooms(roomNames, s)
    requires NamesContainers(names, s)
    ensures ItemsInStep(items, World(s))
  {
    hide Sound;
    ghost var world := World(s);
    SoundRows(s);
    items := map[];
    for i := 0 to |rows|
      invariant forall k :: k in items ==> ItemName(k) in world && world[ItemName(k)] == ItemRow(items[k])
      invariant forall j :: 0 <= j < i ==> KeyOfItem(s.rooms, s.containers, rows[j]).itemKey in items
    {
      assert rows[i] in rows;
      assert HasRow(s, ItemRow(rows[i])) && LocationExists(s, rows[i].location);
      var key := KeyOfLocation(rows[i], roomNames, names, s);
      items := items[key.value := rows[i]];
    }
    forall key | key in world && key.ItemName? ensures key.itemKey in items {
      assert HasRow(s, world[key]) && KeyOfRow(s, world[key]) == key && world[key].item in rows;
    }
  }

  // ---- The checks, with the names known so far ---------------------------------------------

  function RoomKeys(rooms: seq<DocRoom>): set<string> {
    set i | 0 <= i < |rooms| :: ScopeKey(Trim(rooms[i].name))
  }

  function EntryKeys(entries: seq<DocContainer>): set<ContainerKey> {
    set i | 0 <= i < |entries| :: EntryKey(entries[i])
  }

  predicate ContainerFits(rooms: set<string>, e: DocContainer) {
    ScopeKey(e.room) in rooms && ValidContainer(ContainerTarget(e, 1, None))
  }

  predicate ParentFits(containers: set<ContainerKey>, e: DocContainer) {
    e.parent != "" ==> ScopeKey(e.parent) != ScopeKey(e.name) && ParentKey(e) in containers
  }

  predicate ItemFits(rooms: set<string>, containers: set<ContainerKey>, e: DocItem) {
    && ValidItem(ItemTarget(e, Location(e.location.kind, 1)))
    && (if e.location.kind.ContainerKind?
        then ContainerKey(ScopeKey(e.location.room), ScopeKey(e.location.container)) in containers
        else ScopeKey(e.location.room) in rooms)
  }

  /** The check of a whole document, given the names that stand already. */
  ghost predicate Checked(rooms: set<string>, containers: set<ContainerKey>, doc: Document) {
    var knownRooms, knownContainers := rooms + RoomKeys(doc.rooms), containers + EntryKeys(doc.containers);
    && RoomsAccepted(doc.rooms)
    && KeysDistinct(doc.containers)
    && (forall i :: 0 <= i < |doc.containers| ==> ContainerFits(knownRooms, doc.containers[i]))
    && (forall i :: 0 <= i < |doc.containers| ==> ParentFits(knownContainers, doc.containers[i]))
    && (forall i :: 0 <= i < |doc.items| ==> ItemFits(knownRooms, knownContainers, doc.items[i]))
    && ItemKeysDistinct(doc.items)
    && Ordered(doc.containers).Ok?
  }

  ghost predicate StandsIn(s: State, rooms: set<string>, containers: set<ContainerKey>)
    requires Sound(s)
  {
    && (forall k :: k in rooms <==> RoomName(k) in World(s))
    && (forall k :: k in containers <==> ContainerName(k) in World(s))
  }

  lemma KnownNames(s: State, rooms: set<string>, containers: set<ContainerKey>, doc: Document)
    requires Sound(s) && StandsIn(s, rooms, containers)
    ensures forall k :: k in rooms + RoomKeys(doc.rooms) <==> KnownRoom(s, doc, k)
    ensures forall k :: k in containers + EntryKeys(doc.containers) <==> KnownContainer(s, doc, k)
  {
    hide Sound;
  }

  /** Checking against the names that stand is checking against the store. */
  lemma CheckedIsAccepts(s: State, rooms: set<string>, containers: set<ContainerKey>, doc: Document)
    requires Sound(s) && StandsIn(s, rooms, containers)
    ensures Checked(rooms, containers, doc) <==> Accepts(s, doc)
  {
    hide Sound, KnownRoom, KnownContainer, StandsIn, RoomsAccepted, ItemKeysDistinct, RoomKeys, EntryKeys;
    KnownNames(s, rooms, containers, doc);
    var knownRooms, knownContainers := rooms + RoomKeys(doc.rooms), containers + EntryKeys(doc.containers);
    forall e ensures ContainerFits(knownRooms, e) && ParentFits(knownContainers, e) <==> ContainerAccepted(s, doc, e) {
      assert ScopeKey(e.room) in knownRooms <==> KnownRoom(s, doc, ScopeKey(e.room));
      assert ParentKey(e) in knownContainers <==> KnownContainer(s, doc, ParentKey(e));
    }
    forall e ensures ItemFits(knownRooms, knownContainers, e) <==> ItemAccepted(s, doc, e) {
      assert ScopeKey(e.location.room) in knownRooms <==> KnownRoom(s, doc, ScopeKey(e.location.room));
      var key := ContainerKey(ScopeKey(e.location.room), ScopeKey(e.location.container));
      assert key in knownContainers <==> KnownContainer(s, doc, key);
    }
    CheckedEachIsAccepted(s, knownRooms, knownContainers, doc);
  }

  lemma CheckedEachIsAccepted(s: State, knownRooms: set<string>, knownContainers: set<ContainerKey>, doc: Document)
    requires Sound(s)
    requires forall e :: ContainerFits(knownRooms, e) && ParentFits(knownContainers, e) <==> ContainerAccepted(s, doc, e)
    requires forall e :: ItemFits(knownRooms, knownContainers, e) <==> ItemAccepted(s, doc, e)
    ensures (forall i :: 0 <= i < |doc.containers| ==> ContainerAccepted(s, doc, doc.containers[i])) <==>
      (forall i :: 0 <= i < |doc.containers| ==>
        ContainerFits(knownRooms, doc.containers[i]) && ParentFits(knownContainers, doc.containers[i]))
    ensures (forall i :: 0 <= i < |doc.items| ==> ItemAccepted(s, doc, doc.items[i])) <==>
      (forall i :: 0 <= i < |doc.items| ==> ItemFits(knownRooms, knownContainers, doc.items[i]))
  {
    hide Sound, ContainerFits, ParentFits, ItemFits, ContainerAccepted, ItemAccepted;
  }

  class NameWorld {
    var rooms: RoomMap
    var containers: ContainerMap
    var items: ItemMap
    var knownRooms: set<string>
    var knownContainers: set<ContainerKey>

    constructor (rooms: RoomMap, containers: ContainerMap, items: ItemMap)
      ensures Named() == Maps(rooms, containers, items)
      ensures knownRooms == rooms.Keys && knownContainers == containers.Keys
    {
      this.rooms, this.containers, this.items := rooms, containers, items;
      knownRooms, knownContainers := rooms.Keys, containers.Keys;
    }

    function Named(): Maps
      reads this
    {
      Maps(rooms, containers, items)
    }

    // ---- Checking ----------------------------------------------------------------------------

    method CheckRooms(entries: seq<DocRoom>) returns (ok: bool)
      modifies this`knownRooms
      ensures ok <==> RoomsAccepted(entries)
      ensures ok ==> knownRooms == old(knownRooms) + RoomKeys(entries)
    {
      hide ValidRoom;
      var declared: set<string> := {};
      for i := 0 to |entries|
        invariant RoomsAccepted(entries[..i])
        invariant declared == RoomKeys(entries[..i]) && knownRooms == old(knownRooms) + declared
      {
        var target := RoomTarget(entries[i]);
        var key := ScopeKey(target.name);
        assert entries[..i + 1] == entries[..i] + [entries[i]];
        if !ValidRoom(target) {
          return false;
        }
        if key in declared {
          return false;
        }
        declared := declared + {key};
        knownRooms := knownRooms + {key};
        assert RoomKeys(entries[..i + 1]) == RoomKeys(entries[..i]) + {key};
      }
      assert entries[..|entries|] == entries;
      return true;
    }

    method CheckContainers(entries: seq<DocContainer>) returns (ok: bool)
      modifies this`knownContainers
      ensures ok <==>
        KeysDistinct(entries)
        && (forall i :: 0 <= i < |entries| ==> ContainerFits(knownRooms, entries[i]))
        && (forall i :: 0 <= i < |entries| ==> ParentFits(old(knownContainers) + EntryKeys(entries), entries[i]))
      ensures ok ==> knownContainers == old(knownContainers) + EntryKeys(entries)
    {
      hide ValidContainer, ContainerTarget, EntryKey, ParentKey;
      var declared: set<ContainerKey> := {};
      for i := 0 to |entries|
        invariant KeysDistinct(entries[..i])
        invariant declared == EntryKeys(entries[..i]) && knownContainers == old(knownContainers) + declared
        invariant forall j :: 0 <= j < i ==> ContainerFits(knownRooms, entries[j])
      {
        var e := entries[i];
        assert entries[..i + 1] == entries[..i] + [e];
        if EntryKey(e) in declared {
          assert !KeysDistinct(entries);
          return false;
        }
        declared := declared + {EntryKey(e)};
        if ScopeKey(e.room) !in knownRooms {
          return false;
        }
        if !ValidContainer(ContainerTarget(e, 1, None)) {
          return false;
        }
        knownContainers := knownContainers + {EntryKey(e)};
        assert EntryKeys(entries[..i + 1]) == EntryKeys(entries[..i]) + {EntryKey(e)};
      }
      assert entries[..|entries|] == entries;
      for i := 0 to |entries|
        invariant forall j :: 0 <= j < i ==> ParentFits(knownContainers, entries[j])
      {
        var e := entries[i];
        if e.parent != "" {
          if ScopeKey(e.parent) == ScopeKey(e.name) {
            return false;
          }
          if ParentKey(e) !in knownContainers {
            return false;
          }
        }
      }
      return true;
    }

    method CheckItems(entries: seq<DocItem>) returns (ok: bool)
      ensures ok <==>
        ItemKeysDistinct(entries) && (forall i :: 0 <= i < |entries| ==> ItemFits(knownRooms, knownContainers, entries[i]))
    {
      hide ValidItem, ItemTarget, DocItemKey;
      var declared: set<ItemKey> := {};
      for i := 0 to |entries|
        invariant ItemKeysDistinct(entries[..i])
        invariant declared == set j | 0 <= j < i :: DocItemKey(entries[j])
        invariant forall j :: 0 <= j < i ==> ItemFits(knownRooms, knownContainers, entries[j])
      {
        var e := entries[i];
        if !ValidItem(ItemTarget(e, Location(e.location.kind, 1))) {
          return false;
        }
        if e.location.kind.ContainerKind? {
          if ContainerKey(ScopeKey(e.location.room), ScopeKey(e.location.container)) !in knownContainers {
            return false;
          }
        } else if ScopeKey(e.location.room) !in knownRooms {
          return false;
        }
        if DocItemKey(e) in declared {
          return false;
        }
        declared := declared + {DocItemKey(e)};
      }
      assert entries[..|entries|] == entries;
      return true;
    }

    /** All the checks; nothing is written before every entry has passed. */
    method Check(doc: Document) returns (ok: bool)
      modifies this`knownRooms, this`knownContainers
      ensures ok <==> Checked(old(knownRooms), old(knownContainers), doc)
      ensures ok ==> Ordered(doc.containers).Ok?
    {
      hide RoomsAccepted, ContainerFits, ParentFits, ItemFits, ItemKeysDistinct, KeysDistinct, Ordered, RoomKeys, EntryKeys;
      ok := CheckRooms(doc.rooms);
      if !ok {
        return;
      }
      ok := CheckContainers(doc.containers);
      if !ok {
        return;
      }
      ok := CheckItems(doc.items);
      if !ok {
        return;
      }
      var ordered := OrderContainers(doc.containers);
      ok := ordered.Ok?;
    }

    // ---- Applying ----------------------------------------------------------------------------

    method ApplyRoom(repos: Repos, e: DocRoom) returns (r: Outcome<Fate>)
      requires Sound(repos.View())
      modifies this`rooms, repos
      ensures (repos.View(), Named(), r) == RoomBy(old(repos.View()), old(Named()), e)
      ensures Sound(repos.View())
    {
      hide Sound, StoreModel.CreateRoom, StoreModel.UpdateRoom;
      EntryBySound(repos.View(), Named(), RoomEntry(e));
      var target := RoomTarget(e);
      var key := ScopeKey(target.name);
      if key !in rooms {
        var created := repos.CreateRoom(target);
        if created.Err? {
          return Err(created.error);
        }
        rooms := rooms[key := created.value];
        return Ok(Created);
      }
      var current := rooms[key];
      if current.name == target.name && current.description == target.description {
        return Ok(Unchanged);
      }
      var updated := repos.UpdateRoom(target.(id := current.id));
      if updated.Err? {
        return Err(updated.error);
      }
      rooms := rooms[key := updated.value];
      return Ok(Updated);
    }

    method ApplyContainer(repos: Repos, e: DocContainer) returns (r: Outcome<Fate>)
      requires Sound(repos.View())
      modifies this`containers, repos
      ensures (repos.View(), Named(), r) == ContainerBy(old(repos.View()), old(Named()), e)
      ensures Sound(repos.View())
    {
      hide Sound, StoreModel.CreateContainer, StoreModel.UpdateContainer;
      EntryBySound(repos.View(), Named(), ContainerEntry(e));
      var key := EntryKey(e);
      var target := NormalContainer(Container(0, 0, None, e.name, e.description));
      if ScopeKey(e.room) !in rooms {
        return Err(Broken);
      }
      target := target.(roomId := rooms[ScopeKey(e.room)].id);
      if e.parent != "" {
        if ParentKey(e) !in containers {
          return Err(Broken);
        }
        target := target.(parent := Some(containers[ParentKey(e)].id));
      }
      if key !in containers {
        var created := repos.CreateContainer(target);
        if created.Err? {
          return Err(created.error);
        }
        containers := containers[key := created.value];
        return Ok(Created);
      }
      if ContainersMatch(containers[key], target) {
        return Ok(Unchanged);
      }
      var updated := repos.UpdateContainer(target.(id := containers[key].id));
      if updated.Err? {
        return Err(updated.error);
      }
      containers := containers[key := updated.value];
      return Ok(Updated);
    }

    method ApplyItem(repos: Repos, e: DocItem) returns (r: Outcome<Fate>)
      requires Sound(repos.View())
      modifies this`items, repos
      ensures (repos.View(), Named(), r) == ItemBy(old(repos.View()), old(Named()), e)
      ensures Sound(repos.View())
    {
      hide Sound, StoreModel.CreateItem, StoreModel.UpdateItem;
      EntryBySound(repos.View(), Named(), ItemEntry(e));
      var place := ResolveBy(Named(), e.location);
      if place.Err? {
        return Err(place.error);
      }
      var target := ItemTarget(e, place.value);
      var key := DocItemKey(e);
      if key !in items {
        var created := repos.CreateItem(target);
        if created.Err? {
          return Err(created.error);
        }
        items := items[key := created.value];
        return Ok(Created);
      }
      if ItemsMatch(items[key], target) {
        return Ok(Unchanged);
      }
      var updated := repos.UpdateItem(target.(id := items[key].id));
      if updated.Err? {
        return Err(updated.error);
      }
      items := items[key := updated.value];
      return Ok(Updated);
    }

    /** `before` entries are applied; the ones this list stands for come next. */
    method ApplyRooms(repos: Repos, entries: seq<DocRoom>, ghost whole: Applied, ghost script: seq<Entry>)
      returns (counts: Counts, error: Option<Error>, ghost fates: seq<Fate>)
      requires Sound(repos.View()) && Progress(whole, script, 0, repos.View(), Named(), [])
      requires |entries| <= |script| && forall i :: 0 <= i < |entries| ==> script[i] == RoomEntry(entries[i])
      modifies this`rooms, repos
      ensures Sound(repos.View()) && counts == Tally(fates) && |fates| <= |entries|
      ensures error.None? ==> Progress(whole, script, |entries|, repos.View(), Named(), fates)
      ensures error.Some? ==> whole == Applied(repos.View(), fates, error)
    {
      hide Sound, Progress, RoomBy;
      counts, error, fates := NONE, None, [];
      for i := 0 to |entries|
        invariant Sound(repos.View()) && counts == Tally(fates) && |fates| == i
        invariant Progress(whole, script, i, repos.View(), Named(), fates)
      {
        ProgressSteps(whole, script, i, repos.View(), Named(), fates);
        var r := ApplyRoom(repos, entries[i]);
        if r.Err? {
          return counts, Some(r.error), fates;
        }
        TallyOneMore(fates, r.value);
        counts, fates := Count(counts, r.value), fates + [r.value];
      }
    }

    method ApplyContainers(repos: Repos, entries: seq<DocContainer>, ghost whole: Applied, ghost script: seq<Entry>, ghost before: seq<Fate>)
      returns (counts: Counts, error: Option<Error>, ghost fates: seq<Fate>)
      requires Ordered(entries).Ok? && var ordered := Ordered(entries).value;
        && |before| + |ordered| <= |script|
        && (forall i :: 0 <= i < |ordered| ==> script[|before| + i] == ContainerEntry(ordered[i]))
        && |ordered| == |entries|
      requires Sound(repos.View()) && Progress(whole, script, |before|, repos.View(), Named(), before)
      modifies this`containers, repos
      ensures Sound(repos.View()) && counts == Tally(fates) && |fates| <= |entries|
      ensures error.None? ==> Progress(whole, script, |before| + |entries|, repos.View(), Named(), before + fates)
      ensures error.None? ==> |fates| == |entries|
      ensures error.Some? ==> whole == Applied(repos.View(), before + fates, error)
    {
      hide Sound, Progress, ContainerBy, Ordered;
      var sorted := OrderContainers(entries);
      var ordered := sorted.value;
      counts, error, fates := NONE, None, [];
      assert before + fates == before;
      for i := 0 to |ordered|
        invariant Sound(repos.View()) && counts == Tally(fates) && |fates| == i
        invariant Progress(whole, script, |before| + i, repos.View(), Named(), before + fates)
      {
        ProgressSteps(whole, script, |before| + i, repos.View(), Named(), before + fates);
        var r := ApplyContainer(repos, ordered[i]);
        if r.Err? {
          return counts, Some(r.error), fates;
        }
        TallyOneMore(fates, r.value);
        assert (before + fates) + [r.value] == before + (fates + [r.value]);
        counts, fates := Count(counts, r.value), fates + [r.value];
      }
    }

    method ApplyItems(repos: Repos, entries: seq<DocItem>, ghost whole: Applied, ghost script: seq<Entry>, ghost before: seq<Fate>)
      returns (counts: Counts, error: Option<Error>, ghost fates: seq<Fate>)
      requires |before| + |entries| == |script|
      requires forall i :: 0 <= i < |entries| ==> script[|before| + i] == ItemEntry(entries[i])
      requires Sound(repos.View()) && Progress(whole, script, |before|, repos.View(), Named(), before)
      modifies this`items, repos
      ensures Sound(repos.View()) && counts == Tally(fates) && |fates| <= |entries|
      ensures whole == Applied(repos.View(), before + fates, error)
    {
      hide Sound, Progress, ItemBy;
      counts, error, fates := NONE, None, [];
      assert before + fates == before;
      for i := 0 to |entries|
        invariant Sound(repos.View()) && counts == Tally(fates) && |fates| == i
        invariant Progress(whole, script, |before| + i, repos.View(), Named(), before + fates)
      {
        ProgressSteps(whole, script, |before| + i, repos.View(), Named(), before + fates);
        var r := ApplyItem(repos, entries[i]);
        if r.Err? {
          return counts, Some(r.error), fates;
        }
        TallyOneMore(fates, r.value);
        assert (before + fates) + [r.value] == before + (fates + [r.value]);
        counts, fates := Count(counts, r.value), fates + [r.value];
      }
      ProgressEnds(whole, script, repos.View(), Named(), before + fates);
    }

    method Apply(repos: Repos, doc: Document) returns (report: Report, error: Option<Error>)
      requires Sound(repos.View()) && Ordered(doc.containers).Ok?
      modifies this, repos
      ensures Sound(repos.View())
      ensures var whole := ApplyBy(old(repos.View()), old(Named()), Script(doc));
        repos.View() == whole.state && error == whole.error && report == ReportOf(whole.fates, doc)
    {
      hide Sound, Progress, ApplyBy, ReportOf, Script, Ordered;
      ghost var script := Script(doc);
      ghost var whole := ApplyBy(repos.View(), Named(), script);
      report, error := Report(NONE, NONE, NONE), None;
      ghost var rooms, containers, items: seq<Fate> := [], [], [];
      ScriptLists(doc);
      ProgressStarts(repos.View(), Named(), script);
      var counts;
      counts, error, rooms := ApplyRooms(repos, doc.rooms, whole, script);
      report := report.(rooms := counts);
      if error.None? {
        AppliedSoFar(whole, script, |doc.rooms|, repos.View(), Named(), rooms);
        counts, error, containers := ApplyContainers(repos, doc.containers, whole, script, rooms);
        report := report.(containers := counts);
        if error.None? {
          AppliedSoFar(whole, script, |doc.rooms| + |doc.containers|, repos.View(), Named(), rooms + containers);
          counts, error, items := ApplyItems(repos, doc.items, whole, script, rooms + containers);
          report := report.(items := counts);
        }
      }
      assert whole.fates == rooms + containers + items;
      ReportInParts(doc, rooms, containers, items);
    }
  }

  lemma AppliedSoFar(whole: Applied, script: seq<Entry>, done: nat, s: State, m: Maps, fates: seq<Fate>)
    requires done <= |script| && Progress(whole, script, done, s, m, fates)
    ensures |fates| == done
  {
  }

  /** The script lists rooms, ordered containers and items, in this order. */
  lemma ScriptLists(doc: Document)
    requires Ordered(doc.containers).Ok?
    ensures var ordered, script := Ordered(doc.containers).value, Script(doc);
      && |ordered| == |doc.containers| && |script| == |doc.rooms| + |doc.containers| + |doc.items|
      && (forall i :: 0 <= i < |doc.rooms| ==> script[i] == RoomEntry(doc.rooms[i]))
      && (forall i :: 0 <= i < |ordered| ==> script[|doc.rooms| + i] == ContainerEntry(ordered[i]))
      && (forall i :: 0 <= i < |doc.items| ==> script[|doc.rooms| + |doc.containers| + i] == ItemEntry(doc.items[i]))
  {
    hide Ordered;
    ScriptLength(doc);
    var ordered, script := Ordered(doc.containers).value, Script(doc);
    forall i | 0 <= i < |script|
      ensures script[i] == if i < |doc.rooms| then RoomEntry(doc.rooms[i])
        else if i < |doc.rooms| + |ordered| then ContainerEntry(ordered[i - |doc.rooms|])
        else ItemEntry(doc.items[i - |doc.rooms| - |ordered|])
    {
      ScriptAt(doc.rooms, ordered, doc.items, i);
    }
  }

  /**
   The whole import. A document that is refused leaves the store as it was; any
   other is applied as the script it stands for, with every name looked up in an
   index of the store as it was found.
   */
  method Import(repos: Repos, doc: Document) returns (report: Report, error: Option<Error>, ghost found: Maps)
    requires Sound(repos.View())
    modifies repos
    ensures Sound(repos.View())
    ensures doc.format != FORMAT || doc.version != VERSION || !Accepts(old(repos.View()), doc) ==>
      error == Some(Validation) && repos.View() == old(repos.View()) && report == Report(NONE, NONE, NONE)
    ensures doc.format == FORMAT && doc.version == VERSION && Accepts(old(repos.View()), doc) ==>
      && InStep(found, World(old(repos.View())))
      && var whole := ApplyBy(old(repos.View()), found, Script(doc));
      repos.View() == whole.state && error == whole.error && report == ReportOf(whole.fates, doc)
  {
    hide Sound, ApplyBy, ReportOf, Script, Accepts, Checked, StandsIn;
    ghost var s := repos.View();
    report, found := Report(NONE, NONE, NONE), Maps(map[], map[], map[]);
    if doc.format != FORMAT || doc.version != VERSION {
      return report, Some(Validation), found;
    }
    var roomRows := repos.ListRooms();
    var containerRows := repos.ListContainers();
    var itemRows := repos.ListItems();
    var rooms, roomNames := LoadRooms(roomRows, s);
    var containers, names := LoadContainers(containerRows, roomNames, s);
    var items := LoadItems(itemRows, roomNames, names, s);
    found := Maps(rooms, containers, items);
    var world := new NameWorld(rooms, containers, items);
    var ok := world.Check(doc);
    LoadedStands(s, found);
    CheckedIsAccepts(s, rooms.Keys, containers.Keys, doc);
    if !ok {
      return report, Some(Validation), found;
    }
    report, error := world.Apply(repos, doc);
  }

  lemma LoadedStands(s: State, m: Maps)
    requires Sound(s) && InStep(m, World(s))
    ensures StandsIn(s, m.rooms.Keys, m.containers.Keys)
  {
    hide Sound;
  }
}
