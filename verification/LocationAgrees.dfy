/**
 The index built from the listings of a sound store agrees with the store: with its
 own walks upwards, with what can be reached downwards, and with every count.
 */
module LocationAgrees {
  import opened Inventory
  import opened Forest
  import opened StoreModel
  import opened StoreInvariant
  import opened StoreTree
  import opened Store
  import opened Paths
  import opened LocationIndex

  lemma TableOfListing(rows: seq<Container>, cs: Containers)
    requires RowsKeyed(cs) && Lists(rows, cs)
    ensures ContainerTable(rows) == cs
  {
    ContainerTableKeyed(rows);
    forall id ensures id in ContainerTable(rows) <==> id in cs {
      if id in cs {
        assert cs[id] in rows;
      }
    }
    forall id | id in cs ensures ContainerTable(rows)[id] == cs[id] {
      assert cs[id] in rows;
      assert ContainerTable(rows)[id] in rows;
    }
  }

  lemma TableOfRooms(rows: seq<Room>, rooms: Rooms)
    requires Lists(rows, rooms) && forall id :: id in rooms ==> rooms[id].id == id
    ensures RoomTable(rows) == rooms
  {
    RoomTableKeyed(rows);
    forall id ensures id in RoomTable(rows) <==> id in rooms {
      if id in rooms {
        assert rooms[id] in rows;
      }
    }
    forall id | id in rooms ensures RoomTable(rows)[id] == rooms[id] {
      assert rooms[id] in rows;
      assert RoomTable(rows)[id] in rows;
    }
  }

  /** The tables of the index are those of the store, in whatever order it lists them. */
  lemma IndexTables(s: State, rooms: seq<Room>, containers: seq<Container>, fold: string -> string)
    requires Sound(s) && Lists(rooms, s.rooms) && Lists(containers, s.containers)
    ensures var index := IndexOf(rooms, containers, fold);
      index.rooms == s.rooms && index.containers == s.containers && RowsKeyed(index.containers)
  {
    SoundRows(s);
    TableOfListing(containers, s.containers);
    TableOfRooms(rooms, s.rooms);
  }

  // ---- Upwards -----------------------------------------------------------------------------

  /** The same rows, from the top down. */
  function TopDown(chain: seq<Container>): seq<Container> {
    if chain == [] then [] else TopDown(chain[1..]) + [chain[0]]
  }

  lemma {:induction false} ChainAgrees(cs: Containers, id: int, seen: set<int>)
    requires IsForest(cs) && RowsKeyed(cs) && id in cs
    requires forall x :: x in seen ==> x !in Chain(ParentLinks(cs), id)
    ensures var chain := ChainFrom(cs, cs[id], seen);
      && TopDown(chain) == PathRows(cs, id) && NamesTop(chain) == NamesDown(cs, id)
      && ChainIds(chain) == Chain(ParentLinks(cs), id)
    decreases Height(ParentLinks(cs), id)
  {
    hide Acyclic, ChainFrom, TopDown, NamesTop;
    var up, c := ParentLinks(cs), cs[id];
    ChainStarts(cs, c, seen);
    if id in up {
      var parent := up[id];
      if Reaches(up, parent, id) {
        ReachesHeight(up, parent, id);
      }
      AboveIs(cs, c, seen + {id});
      ChainAgrees(cs, parent, seen + {id});
      OneMoreRow(c, ChainFrom(cs, cs[parent], seen + {id}));
      OneMoreId(c, ChainFrom(cs, cs[parent], seen + {id}));
    } else {
      OneMoreRow(c, []);
      OneMoreId(c, []);
    }
  }

  lemma OneMoreRow(c: Container, rest: seq<Container>)
    ensures TopDown([c] + rest) == TopDown(rest) + [c]
    ensures NamesTop([c] + rest) == NamesTop(rest) + [c.name]
    ensures TopDown([]) == [] && NamesTop([]) == []
  {
    assert ([c] + rest)[1..] == rest;
  }

  lemma OneMoreId(c: Container, rest: seq<Container>)
    ensures ChainIds([c] + rest) == [c.id] + ChainIds(rest)
    ensures ChainIds([]) == []
  {
  }

  /** A path of the index is the rendering of the chain the store itself walks. */
  lemma PathAgrees(s: State, place: Location)
    requires Sound(s) && LocationExists(s, place)
    ensures RowsKeyed(s.containers) && PlaceKnown(s.rooms, s.containers, place)
    ensures PathOfPlace(s.rooms, s.containers, place) == PathText(PlaceNames(s.rooms, s.containers, place))
  {
    SoundRows(s);
    if place.kind.ContainerKind? {
      ChainAgrees(s.containers, place.id, {});
    }
  }

  /** The ancestors of a container are its store chain from the inside out, then its room. */
  lemma AncestorsAgree(s: State, id: int)
    requires Sound(s) && id in s.containers
    ensures RowsKeyed(s.containers)
    ensures var chain := ChainFrom(s.containers, s.containers[id], {});
      && TopDown(chain) == PathRows(s.containers, id) && ChainIds(chain) == Chain(ParentLinks(s.containers), id)
      && AncestorsOf(s.rooms, s.containers, InContainer(id)) == ContainerPlacesOf(chain) + [InRoom(s.containers[id].roomId)]
  {
    var cs := s.containers;
    SoundRows(s);
    ChainAgrees(cs, id, {});
    var chain := ChainFrom(cs, cs[id], {});
    ChainIsWalk(cs, id, {});
    var top := chain[|chain| - 1];
    assert top in chain && ChainIds(chain)[|chain| - 1] == top.id;
    assert Reaches(ParentLinks(cs), id, top.id);
    OneRoomUpwards(cs, id, top.id);
  }

  lemma AncestorMembers(s: State, id: int)
    requires Sound(s) && id in s.containers
    ensures RowsKeyed(s.containers)
    ensures forall x :: InContainer(x) in AncestorsOf(s.rooms, s.containers, InContainer(id)) <==> Reaches(ParentLinks(s.containers), id, x)
    ensures forall r :: InRoom(r) in AncestorsOf(s.rooms, s.containers, InContainer(id)) <==> r == s.containers[id].roomId
  {
    hide Sound, AncestorsOf, ChainFrom;
    AncestorsAgree(s, id);
    var chain := ChainFrom(s.containers, s.containers[id], {});
    var places := ContainerPlacesOf(chain);
    forall x ensures InContainer(x) in places <==> x in ChainIds(chain) {
      if x in ChainIds(chain) {
        var i :| 0 <= i < |chain| && ChainIds(chain)[i] == x;
        assert places[i] == InContainer(x);
      }
      if InContainer(x) in places {
        var i :| 0 <= i < |places| && places[i] == InContainer(x);
        assert ChainIds(chain)[i] == x;
      }
    }
  }
}
