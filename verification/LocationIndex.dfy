/**
 The in-memory index of places: how a location reads as a path, what holds it, what
 it holds, and which location a name or a path means. It is built from listings and
 takes them as they are: parents may be missing or form a circle.
 */
module LocationIndex {
  import opened Sequences
  import opened Text
  import opened Inventory
  import opened Forest
  import opened StoreModel
  import opened Paths

  /** One named location, in indexing order. */
  datatype Place = Place(name: string, path: string, location: Location)

  datatype Index = Index(
    rooms: Rooms, containers: Containers, containerList: seq<Container>,
    byPath: map<string, Location>, places: seq<Place>)

  // ---- The tables ------------------------------------------------------------------------

  /** The last row listed under an id is the one it stands for. */
  function RoomTable(rows: seq<Room>): Rooms {
    if rows == [] then map[] else RoomTable(rows[..|rows| - 1])[rows[|rows| - 1].id := rows[|rows| - 1]]
  }

  function ContainerTable(rows: seq<Container>): Containers {
    if rows == [] then map[] else ContainerTable(rows[..|rows| - 1])[rows[|rows| - 1].id := rows[|rows| - 1]]
  }

  lemma {:induction false} ContainerTableKeyed(rows: seq<Container>)
    ensures RowsKeyed(ContainerTable(rows))
    ensures forall c :: c in rows ==> c.id in ContainerTable(rows)
    ensures forall id :: id in ContainerTable(rows) ==> ContainerTable(rows)[id] in rows
  {
    if rows != [] {
      var before, last := rows[..|rows| - 1], rows[|rows| - 1];
      ContainerTableKeyed(before);
      assert rows == before + [last];
    }
  }

  lemma {:induction false} RoomTableKeyed(rows: seq<Room>)
    ensures forall r :: r in rows ==> r.id in RoomTable(rows)
    ensures forall id :: id in RoomTable(rows) ==> RoomTable(rows)[id] in rows && RoomTable(rows)[id].id == id
  {
    if rows != [] {
      var before, last := rows[..|rows| - 1], rows[|rows| - 1];
      RoomTableKeyed(before);
      assert rows == before + [last];
    }
  }

  // ---- The walk up -------------------------------------------------------------------------

  /** From a row up to the top of what is still connected, every id at most once. */
  function ChainFrom(cs: Containers, c: Container, seen: set<int>): (chain: seq<Container>)
    requires RowsKeyed(cs) && c.id in cs
    ensures c.id !in seen ==> chain != [] && chain[0] == c
    decreases |cs.Keys - seen|
  {
    if c.id in seen then []
    else if c.parent.Some? && c.parent.value in cs then
      assert cs.Keys - (seen + {c.id}) < cs.Keys - seen by { assert c.id in cs.Keys - seen; }
      SubsetSmaller(cs.Keys - (seen + {c.id}), cs.Keys - seen);
      assert cs[c.parent.value].id == c.parent.value;
      [c] + ChainFrom(cs, cs[c.parent.value], seen + {c.id})
    else [c]
  }

  function ChainIds(chain: seq<Container>): (ids: seq<int>)
    ensures |ids| == |chain| && forall i :: 0 <= i < |ids| ==> ids[i] == chain[i].id
  {
    seq(|chain|, i requires 0 <= i < |chain| => chain[i].id)
  }

  /** The rows of the walk are the rows of the guarded walk over the parent relation. */
  lemma {:induction false} ChainIsWalk(cs: Containers, id: int, seen: set<int>)
    requires RowsKeyed(cs) && id in cs
    ensures ChainIds(ChainFrom(cs, cs[id], seen)) == WalkUp(ParentLinks(cs), id, seen)
    ensures forall c :: c in ChainFrom(cs, cs[id], seen) ==> c.id in cs && cs[c.id] == c
    decreases |cs.Keys - seen|
  {
    var c := cs[id];
    if c.id !in seen && c.parent.Some? && c.parent.value in cs {
      SubsetSmaller(cs.Keys - (seen + {c.id}), cs.Keys - seen);
      ChainIsWalk(cs, c.parent.value, seen + {c.id});
      var rest := ChainFrom(cs, cs[c.parent.value], seen + {c.id});
      assert ChainIds([c] + rest) == [c.id] + ChainIds(rest);
    }
  }

  /** Whatever the listing looks like, the walk ends and meets no container twice. */
  lemma {:induction false} ChainFresh(cs: Containers, c: Container, seen: set<int>)
    requires RowsKeyed(cs) && c.id in cs
    ensures Distinct(ChainIds(ChainFrom(cs, c, seen)))
    ensures forall x :: x in ChainFrom(cs, c, seen) ==> x.id !in seen
    decreases |cs.Keys - seen|
  {
    if c.id !in seen && c.parent.Some? && c.parent.value in cs {
      SubsetSmaller(cs.Keys - (seen + {c.id}), cs.Keys - seen);
      assert cs[c.parent.value].id == c.parent.value;
      ChainFresh(cs, cs[c.parent.value], seen + {c.id});
      var rest := ChainFrom(cs, cs[c.parent.value], seen + {c.id});
      assert ChainIds([c] + rest) == [c.id] + ChainIds(rest);
      forall i | 0 <= i < |rest| ensures ChainIds(rest)[i] != c.id {
        assert rest[i] in rest;
      }
    }
  }

  /** Names from the top down to the first of the chain. */
  function NamesTop(chain: seq<Container>): seq<string> {
    if chain == [] then [] else NamesTop(chain[1..]) + [chain[0].name]
  }

  function PathFrom(rooms: Rooms, cs: Containers, c: Container): string
    requires RowsKeyed(cs) && c.id in cs
  {
    if c.roomId in rooms then PathText([rooms[c.roomId].name] + NamesTop(ChainFrom(cs, c, {}))) else ""
  }

  /** What is still above a row that has been met. */
  function Above(cs: Containers, c: Container, seen: set<int>): seq<Container>
    requires RowsKeyed(cs)
  {
    if c.parent.Some? && c.parent.value in cs then
      assert cs[c.parent.value].id == c.parent.value;
      ChainFrom(cs, cs[c.parent.value], seen)
    else []
  }

  lemma ChainStarts(cs: Containers, c: Container, seen: set<int>)
    requires RowsKeyed(cs) && c.id in cs && c.id !in seen
    ensures ChainFrom(cs, c, seen) == [c] + Above(cs, c, seen + {c.id})
  {
  }

  lemma AboveSteps(cs: Containers, c: Container, seen: set<int>)
    requires RowsKeyed(cs)
    ensures if c.parent.Some? && c.parent.value in cs && c.parent.value !in seen
      then cs[c.parent.value].id == c.parent.value
        && Above(cs, c, seen) == [cs[c.parent.value]] + Above(cs, cs[c.parent.value], seen + {c.parent.value})
      else Above(cs, c, seen) == []
  {
    assert c.parent.Some? && c.parent.value in cs ==> cs[c.parent.value].id == c.parent.value;
  }

  lemma RegroupRows(chain: seq<Container>, c: Container, left: seq<Container>)
    ensures chain + ([c] + left) == (chain + [c]) + left
  {
  }

  lemma AboveIs(cs: Containers, c: Container, seen: set<int>)
    requires RowsKeyed(cs) && c.parent.Some? && c.parent.value in cs
    ensures cs[c.parent.value].id == c.parent.value && Above(cs, c, seen) == ChainFrom(cs, cs[c.parent.value], seen)
    ensures c.parent.value in seen ==> Above(cs, c, seen) == []
  {
    assert cs[c.parent.value].id == c.parent.value;
  }

  method PathOf(rooms: Rooms, cs: Containers, c: Container) returns (path: string)
    requires RowsKeyed(cs) && c.id in cs
    ensures path == PathFrom(rooms, cs, c)
  {
    hide ChainFrom, NamesTop, Join;
    var chain: seq<Container> := [];
    var seen: set<int> := {};
    var container := c;
    ghost var left := ChainFrom(cs, c, {});
    while container.id !in seen
      invariant container.id in cs && left == ChainFrom(cs, container, seen)
      invariant ChainFrom(cs, c, {}) == chain + left
      invariant container.id in seen ==> left == []
      decreases |cs.Keys - seen|
    {
      assert cs.Keys - (seen + {container.id}) < cs.Keys - seen by { assert container.id in cs.Keys - seen; }
      SubsetSmaller(cs.Keys - (seen + {container.id}), cs.Keys - seen);
      ChainStarts(cs, container, seen);
      seen := seen + {container.id};
      left := Above(cs, container, seen);
      RegroupRows(chain, container, left);
      chain := chain + [container];
      if container.parent.None? || container.parent.value !in cs {
        assert left == [];
        break;
      }
      AboveIs(cs, container, seen);
      container := cs[container.parent.value];
    }
    assert chain == ChainFrom(cs, c, {});
    if chain[0].roomId !in rooms {
      return "";
    }
    return PathText([rooms[chain[0].roomId].name] + NamesTop(chain));
  }

  // ---- Building ------------------------------------------------------------------------------

  function RoomPlaces(rows: seq<Room>, fold: string -> string): (places: seq<Place>)
    ensures |places| == |rows|
    ensures forall i :: 0 <= i < |rows| ==> places[i] == Place(fold(rows[i].name), rows[i].name, InRoom(rows[i].id))
  {
    seq(|rows|, i requires 0 <= i < |rows| => Place(fold(rows[i].name), rows[i].name, InRoom(rows[i].id)))
  }

  /** A container whose room is missing is not a place. */
  function ContainerPlaces(rooms: Rooms, cs: Containers, rows: seq<Container>, fold: string -> string): seq<Place>
    requires RowsKeyed(cs) && forall c :: c in rows ==> c.id in cs
  {
    if rows == [] then []
    else
      var c := rows[|rows| - 1];
      var before := ContainerPlaces(rooms, cs, rows[..|rows| - 1], fold);
      var path := PathFrom(rooms, cs, c);
      if path == "" then before else before + [Place(fold(c.name), path, InContainer(c.id))]
  }

  /** The last place with a key is the one the key stands for. */
  function Keyed(places: seq<Place>, fold: string -> string): map<string, Location> {
    if places == [] then map[]
    else Keyed(places[..|places| - 1], fold)[PathKey(places[|places| - 1].path, fold) := places[|places| - 1].location]
  }

  function IndexOf(rooms: seq<Room>, containers: seq<Container>, fold: string -> string): Index {
    ContainerTableKeyed(containers);
    var places := RoomPlaces(rooms, fold) + ContainerPlaces(RoomTable(rooms), ContainerTable(containers), containers, fold);
    Index(RoomTable(rooms), ContainerTable(containers), containers, Keyed(places, fold), places)
  }

  lemma KeyedOneMore(places: seq<Place>, place: Place, fold: string -> string)
    ensures Keyed(places + [place], fold) == Keyed(places, fold)[PathKey(place.path, fold) := place.location]
  {
    assert (places + [place])[..|places|] == places;
  }

  /** Every container goes in the table before any path is built. */
  method AddContainers(rooms: Rooms, cs: Containers, rows: seq<Container>, fold: string -> string,
      keyed: map<string, Location>, before: seq<Place>)
    returns (byPath: map<string, Location>, places: seq<Place>)
    requires RowsKeyed(cs) && forall c :: c in rows ==> c.id in cs
    requires keyed == Keyed(before, fold)
    ensures places == before + ContainerPlaces(rooms, cs, rows, fold) && byPath == Keyed(places, fold)
  {
    hide PathKey, PathFrom;
    byPath, places := keyed, before;
    for i := 0 to |rows|
      invariant places == before + ContainerPlaces(rooms, cs, rows[..i], fold)
      invariant byPath == Keyed(places, fold)
    {
      var c := rows[i];
      assert rows[..i + 1][..i] == rows[..i];
      var path := PathOf(rooms, cs, c);
      if path != "" {
        var place := Place(fold(c.name), path, InContainer(c.id));
        KeyedOneMore(places, place, fold);
        byPath := byPath[PathKey(path, fold) := InContainer(c.id)];
        places := places + [place];
      }
    }
    assert rows[..|rows|] == rows;
  }

  method NewLocationIndex(rooms: seq<Room>, containers: seq<Container>, fold: string -> string) returns (index: Index)
    ensures index == IndexOf(rooms, containers, fold)
  {
    hide PathKey, PathFrom;
    var roomTable: Rooms, byPath: map<string, Location>, places: seq<Place> := map[], map[], [];
    for i := 0 to |rooms|
      invariant roomTable == RoomTable(rooms[..i])
      invariant |places| == i && byPath == Keyed(places, fold)
      invariant forall k :: 0 <= k < i ==> places[k] == Place(fold(rooms[k].name), rooms[k].name, InRoom(rooms[k].id))
    {
      var room := rooms[i];
      var place := Place(fold(room.name), room.name, InRoom(room.id));
      KeyedOneMore(places, place, fold);
      assert rooms[..i + 1][..i] == rooms[..i];
      roomTable := roomTable[room.id := room];
      byPath := byPath[PathKey(room.name, fold) := InRoom(room.id)];
      places := places + [place];
    }
    assert rooms[..|rooms|] == rooms && places == RoomPlaces(rooms, fold);
    var table: Containers := map[];
    for i := 0 to |containers|
      invariant table == ContainerTable(containers[..i])
    {
      assert containers[..i + 1][..i] == containers[..i];
      table := table[containers[i].id := containers[i]];
    }
    assert containers[..|containers|] == containers;
    ContainerTableKeyed(containers);
    byPath, places := AddContainers(roomTable, table, containers, fold, byPath, places);
    index := Index(roomTable, table, containers, byPath, places);
  }

  // ---- Asking ----------------------------------------------------------------------------------

  function PathOfPlace(rooms: Rooms, cs: Containers, place: Location): string
    requires RowsKeyed(cs)
  {
    if place.kind.RoomKind? then (if place.id in rooms then rooms[place.id].name else "")
    else if place.kind.ContainerKind? && place.id in cs then PathFrom(rooms, cs, cs[place.id])
    else ""
  }

  method Path(index: Index, place: Location) returns (path: string)
    requires RowsKeyed(index.containers)
    ensures path == PathOfPlace(index.rooms, index.containers, place)
  {
    if place.kind.RoomKind? {
      return if place.id in index.rooms then index.rooms[place.id].name else "";
    }
    if !place.kind.ContainerKind? || place.id !in index.containers {
      return "";
    }
    path := PathOf(index.rooms, index.containers, index.containers[place.id]);
  }

  function ContainerPlacesOf(chain: seq<Container>): (places: seq<Location>)
    ensures |places| == |chain| && forall i :: 0 <= i < |places| ==> places[i] == InContainer(chain[i].id)
  {
    seq(|chain|, i requires 0 <= i < |chain| => InContainer(chain[i].id))
  }

  /** The place itself, what holds it, and at last the room of the topmost container. */
  function AncestorsOf(rooms: Rooms, cs: Containers, place: Location): seq<Location>
    requires RowsKeyed(cs)
  {
    if place.kind.RoomKind? then (if place.id in rooms then [place] else [])
    else if place.kind.ContainerKind? && place.id in cs then
      var chain := ChainFrom(cs, cs[place.id], {});
      var top := chain[|chain| - 1];
      ContainerPlacesOf(chain) + if top.roomId in rooms then [InRoom(top.roomId)] else []
    else []
  }

  method Ancestors(index: Index, place: Location) returns (ancestors: seq<Location>)
    requires RowsKeyed(index.containers)
    requires forall id :: id in index.rooms ==> index.rooms[id].id == id
    ensures ancestors == AncestorsOf(index.rooms, index.containers, place)
  {
    hide ChainFrom, Above;
    var cs := index.containers;
    if place.kind.RoomKind? {
      return if place.id in index.rooms then [place] else [];
    }
    if !place.kind.ContainerKind? || place.id !in cs {
      return [];
    }
    var container := cs[place.id];
    ancestors := [InContainer(container.id)];
    var seen := {container.id};
    ghost var whole, chain := ChainFrom(cs, container, {}), [container];
    ChainStarts(cs, container, {});
    assert {} + {container.id} == {container.id};
    while container.parent.Some? && container.parent.value in cs && container.parent.value !in seen
      invariant container.id in cs && chain != [] && chain[|chain| - 1] == container
      invariant ancestors == ContainerPlacesOf(chain)
      invariant whole == chain + Above(cs, container, seen)
      decreases |cs.Keys - seen|
    {
      AboveSteps(cs, container, seen);
      var parent := cs[container.parent.value];
      assert cs.Keys - (seen + {parent.id}) < cs.Keys - seen by { assert parent.id in cs.Keys - seen; }
      SubsetSmaller(cs.Keys - (seen + {parent.id}), cs.Keys - seen);
      seen := seen + {parent.id};
      ancestors := ancestors + [InContainer(parent.id)];
      chain := chain + [parent];
      container := parent;
    }
    AboveSteps(cs, container, seen);
    assert whole == chain;
    if container.roomId in index.rooms {
      ancestors := ancestors + [InRoom(index.rooms[container.roomId].id)];
    }
  }

  /** A container sits at the top of its room when its parent is not there. */
  predicate IsRoot(cs: Containers, c: Container) {
    c.parent.None? || c.parent.value !in cs
  }

  predicate SitsIn(rooms: Rooms, cs: Containers, place: Location, c: Container) {
    if place.kind.RoomKind? then place.id in rooms && c.roomId == place.id && IsRoot(cs, c)
    else place.kind.ContainerKind? && place.id in cs && c.parent == Some(place.id)
  }

  /** The rows that sit directly in a place, in listing order. */
  function Sitting(rooms: Rooms, cs: Containers, rows: seq<Container>, place: Location): seq<Container> {
    if rows == [] then []
    else
      Sitting(rooms, cs, rows[..|rows| - 1], place)
      + if SitsIn(rooms, cs, place, rows[|rows| - 1]) then [rows[|rows| - 1]] else []
  }

  /** They are the listed rows that sit there, and no others. */
  lemma {:induction false} SittingMembers(rooms: Rooms, cs: Containers, rows: seq<Container>, place: Location)
    ensures forall c :: c in Sitting(rooms, cs, rows, place) <==> c in rows && SitsIn(rooms, cs, place, c)
  {
    hide SitsIn;
    if rows != [] {
      var before, last := rows[..|rows| - 1], rows[|rows| - 1];
      SittingMembers(rooms, cs, before, place);
      assert rows == before + [last];
    }
  }

  method Children(index: Index, place: Location) returns (children: seq<Container>)
    ensures children == Sitting(index.rooms, index.containers, index.containerList, place)
    ensures forall c :: c in children <==> c in index.containerList && SitsIn(index.rooms, index.containers, place, c)
  {
    SittingMembers(index.rooms, index.containers, index.containerList, place);
    var rows := index.containerList;
    var isRoom, isContainer := place.kind.RoomKind?, place.kind.ContainerKind?;
    if (isRoom && place.id !in index.rooms) || (isContainer && place.id !in index.containers) {
      NobodySits(index.rooms, index.containers, rows, place);
      return [];
    }
    children := [];
    for i := 0 to |rows|
      invariant children == Sitting(index.rooms, index.containers, rows[..i], place)
    {
      var c := rows[i];
      assert rows[..i + 1][..i] == rows[..i];
      if isRoom && c.roomId == place.id && IsRoot(index.containers, c) {
        children := children + [c];
      } else if isContainer && c.parent == Some(place.id) {
        children := children + [c];
      }
    }
    assert rows[..|rows|] == rows;
  }

  lemma {:induction false} NobodySits(rooms: Rooms, cs: Containers, rows: seq<Container>, place: Location)
    requires place.kind.RoomKind? ==> place.id !in rooms
    requires place.kind.ContainerKind? ==> place.id !in cs
    ensures Sitting(rooms, cs, rows, place) == []
  {
    if rows != [] {
      NobodySits(rooms, cs, rows[..|rows| - 1], place);
    }
  }

  // ---- Resolving a name ------------------------------------------------------------------------

  /** The places that carry a folded name, in indexing order. */
  function Carrying(places: seq<Place>, wanted: string): seq<Place> {
    if places == [] then []
    else Carrying(places[..|places| - 1], wanted) + if places[|places| - 1].name == wanted then [places[|places| - 1]] else []
  }

  function PathsOf(places: seq<Place>): (paths: seq<string>)
    ensures |paths| == |places| && forall i :: 0 <= i < |paths| ==> paths[i] == places[i].path
  {
    seq(|places|, i requires 0 <= i < |places| => places[i].path)
  }

  function ResolveIn(index: Index, name: string, fold: string -> string): Outcome<Location> {
    var trimmed := Trim(name);
    if trimmed == "" then Err(Validation)
    else if PathKey(trimmed, fold) in index.byPath then Ok(index.byPath[PathKey(trimmed, fold)])
    else if '>' in trimmed then Err(NotFound)
    else
      var matches := Carrying(index.places, fold(trimmed));
      if |matches| == 0 then Err(NotFound)
      else if |matches| == 1 then Ok(matches[0].location)
      else Err(Ambiguous(PathsOf(matches)))
  }

  method Resolve(index: Index, name: string, fold: string -> string) returns (r: Outcome<Location>)
    ensures r == ResolveIn(index, name, fold)
  {
    var trimmed := Trim(name);
    if trimmed == "" {
      return Err(Validation);
    }
    var key := PathKey(trimmed, fold);
    if key in index.byPath {
      return Ok(index.byPath[key]);
    }
    if '>' in trimmed {
      return Err(NotFound);
    }
    var wanted := fold(trimmed);
    var matches: seq<Place> := [];
    for i := 0 to |index.places|
      invariant matches == Carrying(index.places[..i], wanted)
    {
      assert index.places[..i + 1][..i] == index.places[..i];
      if index.places[i].name == wanted {
        matches := matches + [index.places[i]];
      }
    }
    assert index.places[..|index.places|] == index.places;
    if |matches| == 0 {
      return Err(NotFound);
    }
    if |matches| == 1 {
      return Ok(matches[0].location);
    }
    var paths: seq<string> := [];
    for i := 0 to |matches|
      invariant paths == PathsOf(matches)[..i]
    {
      paths := paths + [matches[i].path];
    }
    assert paths == PathsOf(matches);
    return Err(Ambiguous(paths));
  }
}
