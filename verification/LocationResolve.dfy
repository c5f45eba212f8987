/**
 Resolving a rendered path gives back the place it was rendered from, exactly when no
 other place is looked up by the same key. Where no name contains a separator, as it is
 or folded, that is when names that share a scope stay different after folding.
 */
module LocationResolve {
  import opened Text
  import opened Inventory
  import opened Forest
  import opened StoreModel
  import opened StoreInvariant
  import opened StoreTree
  import opened StoreExamples
  import opened Store
  import opened Paths
  import opened LocationIndex
  import opened LocationAgrees

  /** No name of the inventory folds to a text with a path separator. */
  predicate FoldsPlainly(s: State, fold: string -> string) {
    && (forall id :: id in s.rooms ==> '>' !in fold(s.rooms[id].name))
    && (forall id :: id in s.containers ==> '>' !in fold(s.containers[id].name))
  }

  /** No name of the inventory contains a path separator. */
  predicate NoSeparators(s: State) {
    && (forall id :: id in s.rooms ==> '>' !in s.rooms[id].name)
    && (forall id :: id in s.containers ==> '>' !in s.containers[id].name)
  }

  predicate RoomsApart(s: State, fold: string -> string) {
    forall a, b :: a in s.rooms && b in s.rooms && fold(s.rooms[a].name) == fold(s.rooms[b].name) ==> a == b
  }

  predicate Siblings(s: State, a: int, b: int)
    requires a in s.containers && b in s.containers
  {
    Origin(s.containers[a]) == Origin(s.containers[b])
  }

  predicate SameFold(s: State, a: int, b: int, fold: string -> string)
    requires a in s.containers && b in s.containers
  {
    fold(s.containers[a].name) == fold(s.containers[b].name)
  }

  predicate SiblingsApart(s: State, fold: string -> string) {
    forall a, b :: a in s.containers && b in s.containers && Siblings(s, a, b) && SameFold(s, a, b, fold) ==> a == b
  }

  /** Names in one scope stay different after folding. */
  predicate ScopesApart(s: State, fold: string -> string) {
    RoomsApart(s, fold) && SiblingsApart(s, fold)
  }

  /** The names that lead to a place of the store. */
  ghost function NamesOf(s: State, place: Location): (names: seq<string>)
    requires Sound(s) && LocationExists(s, place)
    ensures |names| > 0
  {
    PathAgrees(s, place);
    PlaceNames(s.rooms, s.containers, place)
  }

  lemma NamesOfRoom(s: State, id: int)
    requires Sound(s) && id in s.rooms
    ensures NamesOf(s, InRoom(id)) == [s.rooms[id].name]
  {
  }

  lemma OriginExists(s: State, x: int)
    requires Sound(s) && x in s.containers
    ensures LocationExists(s, Origin(s.containers[x]))
  {
  }

  /** A container is named by its own name after the names of where it sits. */
  lemma NamesOfContainer(s: State, x: int)
    requires Sound(s) && x in s.containers
    ensures LocationExists(s, Origin(s.containers[x]))
    ensures NamesOf(s, InContainer(x)) == NamesOf(s, Origin(s.containers[x])) + [s.containers[x].name]
  {
    hide RoomsSound, ItemsSound, Acyclic;
    OriginExists(s, x);
    var c := s.containers[x];
    if c.parent.Some? {
      var above := NamesDown(s.containers, c.parent.value);
      assert NamesDown(s.containers, x) == above + [c.name];
      assert ([s.rooms[c.roomId].name] + above) + [c.name] == [s.rooms[c.roomId].name] + (above + [c.name]);
    } else {
      assert NamesDown(s.containers, x) == [] + [c.name];
    }
  }

  /** The names that lead to a place are trimmed, and as plain as all names are. */
  lemma {:induction false} NamesAreKept(s: State, place: Location, n: nat)
    requires Sound(s) && LocationExists(s, place) && n == |NamesOf(s, place)|
    ensures KeptNames(NamesOf(s, place))
    ensures NoSeparators(s) ==> PlainNames(NamesOf(s, place))
    decreases n
  {
    hide NamesOf;
    if place.kind.RoomKind? {
      assert place == InRoom(place.id);
      NamesOfRoom(s, place.id);
      assert RoomAtRest(s.rooms[place.id]);
      TrimIdentity(s.rooms[place.id].name);
    } else {
      assert place == InContainer(place.id);
      var c := s.containers[place.id];
      NamesOfContainer(s, place.id);
      NamesAreKept(s, Origin(c), n - 1);
      assert ContainerAtRest(c);
      TrimIdentity(c.name);
    }
  }

  /** The key a place is looked up by: that of its path. */
  ghost function KeyOfPlace(s: State, place: Location, fold: string -> string): string
    requires Sound(s) && LocationExists(s, place)
  {
    PathKey(PathText(NamesOf(s, place)), fold)
  }

  /** No two places are looked up by the same key. */
  ghost predicate PathKeysApart(s: State, fold: string -> string)
    requires Sound(s)
  {
    forall p, q :: (
      LocationExists(s, p) && LocationExists(s, q) && KeyOfPlace(s, p, fold) == KeyOfPlace(s, q, fold) ==> p == q)
  }

  // ---- Keys by names ------------------------------------------------------------------------

  /** The names that lead to a place, folded. */
  ghost function FoldedNames(s: State, place: Location, fold: string -> string): seq<string>
    requires Sound(s) && LocationExists(s, place)
  {
    FoldAll(NamesOf(s, place), fold)
  }

  /** The folded names that lead to a place contain no separator. */
  lemma {:induction false} FoldedNamesPlain(s: State, place: Location, fold: string -> string, n: nat)
    requires Sound(s) && LocationExists(s, place) && FoldsPlainly(s, fold) && n == |NamesOf(s, place)|
    ensures WithoutSeparator(FoldedNames(s, place, fold))
    decreases n
  {
    hide Sound, NamesOf;
    if place.kind.RoomKind? {
      assert place == InRoom(place.id);
      NamesOfRoom(s, place.id);
    } else {
      assert place == InContainer(place.id);
      NamesOfContainer(s, place.id);
      FoldedNamesPlain(s, Origin(s.containers[place.id]), fold, n - 1);
    }
  }

  /** Two places share a key just when their folded names agree one by one. */
  lemma KeysByNames(s: State, p: Location, q: Location, fold: string -> string)
    requires Sound(s) && LocationExists(s, p) && LocationExists(s, q) && NoSeparators(s) && FoldsPlainly(s, fold)
    ensures KeyOfPlace(s, p, fold) == KeyOfPlace(s, q, fold) <==> FoldedNames(s, p, fold) == FoldedNames(s, q, fold)
  {
    hide NamesOf, Sound, PathKey, PathText;
    NamesAreKept(s, p, |NamesOf(s, p)|);
    NamesAreKept(s, q, |NamesOf(s, q)|);
    KeyOfPath(NamesOf(s, p), fold);
    KeyOfPath(NamesOf(s, q), fold);
    FoldedNamesPlain(s, p, fold, |NamesOf(s, p)|);
    FoldedNamesPlain(s, q, fold, |NamesOf(s, q)|);
    JoinInjective(FoldedNames(s, p, fold), FoldedNames(s, q, fold));
  }

  lemma FoldedLast(names: seq<string>, name: string, others: seq<string>, other: string, fold: string -> string)
    requires FoldAll(names + [name], fold) == FoldAll(others + [other], fold)
    ensures FoldAll(names, fold) == FoldAll(others, fold) && fold(name) == fold(other)
  {
    var all, rest := FoldAll(names + [name], fold), FoldAll(others + [other], fold);
    assert |names| == |others| && all[|names|] == rest[|others|];
    assert all[..|names|] == FoldAll(names, fold) && rest[..|others|] == FoldAll(others, fold);
  }

  lemma NamesCount(s: State, place: Location)
    requires Sound(s) && LocationExists(s, place)
    ensures |NamesOf(s, place)| == 1 <==> place.kind.RoomKind?
  {
    hide Sound, NamesOf;
    if place.kind.RoomKind? {
      assert place == InRoom(place.id);
      NamesOfRoom(s, place.id);
    } else {
      assert place == InContainer(place.id);
      NamesOfContainer(s, place.id);
    }
  }

  /** Names kept apart in every scope keep whole paths apart. */
  lemma {:induction false} FoldedNamesApart(s: State, p: Location, q: Location, fold: string -> string, n: nat)
    requires Sound(s) && LocationExists(s, p) && LocationExists(s, q) && ScopesApart(s, fold)
    requires FoldedNames(s, p, fold) == FoldedNames(s, q, fold) && n == |NamesOf(s, p)|
    ensures p == q
    decreases n
  {
    hide Sound, NamesOf;
    NamesCount(s, p);
    NamesCount(s, q);
    assert |FoldedNames(s, p, fold)| == |FoldedNames(s, q, fold)|;
    if p.kind.RoomKind? {
      assert p == InRoom(p.id) && q == InRoom(q.id);
      NamesOfRoom(s, p.id);
      NamesOfRoom(s, q.id);
      assert FoldedNames(s, p, fold)[0] == FoldedNames(s, q, fold)[0];
    } else {
      assert p == InContainer(p.id) && q == InContainer(q.id);
      var a, b := s.containers[p.id], s.containers[q.id];
      NamesOfContainer(s, p.id);
      NamesOfContainer(s, q.id);
      FoldedLast(NamesOf(s, Origin(a)), a.name, NamesOf(s, Origin(b)), b.name, fold);
      FoldedNamesApart(s, Origin(a), Origin(b), fold, n - 1);
    }
  }

  // ---- What the index holds ------------------------------------------------------------------

  /** The index of a listing of the store. */
  ghost predicate Indexes(s: State, rooms: seq<Room>, containers: seq<Container>) {
    Lists(rooms, s.rooms) && Lists(containers, s.containers)
  }

  /** The name a place itself carries. */
  function OwnName(s: State, place: Location): string
    requires LocationExists(s, place)
  {
    if place.kind.RoomKind? then s.rooms[place.id].name else s.containers[place.id].name
  }

  ghost predicate DescribesPlace(s: State, place: Place, fold: string -> string)
    requires Sound(s)
  {
    && LocationExists(s, place.location)
    && place.path == PathText(NamesOf(s, place.location)) && place.name == fold(OwnName(s, place.location))
  }

  lemma PathFromIs(s: State, c: Container)
    requires Sound(s) && c.id in s.containers && s.containers[c.id] == c
    ensures RowsKeyed(s.containers) && LocationExists(s, InContainer(c.id))
    ensures PathFrom(s.rooms, s.containers, c) == PathText(NamesOf(s, InContainer(c.id))) != ""
  {
    hide PathText;
    PathAgrees(s, InContainer(c.id));
    NamesAreKept(s, InContainer(c.id), |NamesOf(s, InContainer(c.id))|);
    PathIsTrimmed(NamesOf(s, InContainer(c.id)));
  }

  /** Every listed container is a place, in listing order. */
  lemma {:induction false} ContainerPlacesAre(s: State, rows: seq<Container>, fold: string -> string)
    requires Sound(s) && RowsKeyed(s.containers)
    requires forall c :: c in rows ==> c.id in s.containers && s.containers[c.id] == c
    ensures var places := ContainerPlaces(s.rooms, s.containers, rows, fold);
      |places| == |rows| && forall i :: (0 <= i < |rows| ==>
        places[i].location == InContainer(rows[i].id) && DescribesPlace(s, places[i], fold))
    decreases |rows|
  {
    hide Sound, NamesOf, PathText, PathFrom;
    if rows != [] {
      var before, last := rows[..|rows| - 1], rows[|rows| - 1];
      assert last in rows;
      ContainerPlacesAre(s, before, fold);
      PathFromIs(s, last);
    }
  }

  /** Every listed room is a place. */
  lemma RoomPlacesAre(s: State, rooms: seq<Room>, fold: string -> string)
    requires Sound(s) && Lists(rooms, s.rooms)
    ensures forall i :: 0 <= i < |rooms| ==> DescribesPlace(s, RoomPlaces(rooms, fold)[i], fold)
  {
    hide Sound, NamesOf;
    SoundRows(s);
    forall i | 0 <= i < |rooms| ensures DescribesPlace(s, RoomPlaces(rooms, fold)[i], fold) {
      assert rooms[i] in rooms;
      NamesOfRoom(s, rooms[i].id);
    }
  }

  /** The places of the index are the rooms, then the containers, as they are listed. */
  lemma PlacesListed(s: State, rooms: seq<Room>, containers: seq<Container>, fold: string -> string)
    requires Sound(s) && Indexes(s, rooms, containers)
    ensures RowsKeyed(s.containers) && forall c :: c in containers ==> c.id in s.containers && s.containers[c.id] == c
    ensures IndexOf(rooms, containers, fold).places ==
      RoomPlaces(rooms, fold) + ContainerPlaces(s.rooms, s.containers, containers, fold)
    ensures IndexOf(rooms, containers, fold).byPath == Keyed(IndexOf(rooms, containers, fold).places, fold)
  {
    hide Sound, PathFrom, ContainerPlaces, Keyed;
    SoundRows(s);
    IndexTables(s, rooms, containers, fold);
  }

  lemma PlacesAre(s: State, rooms: seq<Room>, containers: seq<Container>, fold: string -> string)
    requires Sound(s) && Indexes(s, rooms, containers)
    ensures var index := IndexOf(rooms, containers, fold);
      && index.byPath == Keyed(index.places, fold)
      && |index.places| == |rooms| + |containers|
      && (forall i :: 0 <= i < |rooms| ==> index.places[i].location == InRoom(rooms[i].id))
      && (forall i :: 0 <= i < |containers| ==> index.places[|rooms| + i].location == InContainer(containers[i].id))
      && (forall i :: 0 <= i < |index.places| ==> DescribesPlace(s, index.places[i], fold))
  {
    hide Sound, NamesOf, PathFrom, DescribesPlace, ContainerPlaces, Keyed, IndexOf;
    PlacesListed(s, rooms, containers, fold);
    ContainerPlacesAre(s, containers, fold);
    RoomPlacesAre(s, rooms, fold);
  }

  lemma {:induction false} KeyedMeans(places: seq<Place>, fold: string -> string, key: string)
    ensures key in Keyed(places, fold) <==> exists i :: 0 <= i < |places| && PathKey(places[i].path, fold) == key
    ensures key in Keyed(places, fold) ==>
      exists i :: 0 <= i < |places| && PathKey(places[i].path, fold) == key && places[i].location == Keyed(places, fold)[key]
    decreases |places|
  {
    hide PathKey;
    if places != [] {
      var before, last := places[..|places| - 1], |places| - 1;
      KeyedMeans(before, fold, key);
      if PathKey(places[last].path, fold) != key {
        if key in Keyed(before, fold) {
          var i :| 0 <= i < |before| && PathKey(before[i].path, fold) == key && before[i].location == Keyed(before, fold)[key];
          assert places[i] == before[i];
        }
        if exists i :: 0 <= i < |places| && PathKey(places[i].path, fold) == key {
          var i :| 0 <= i < |places| && PathKey(places[i].path, fold) == key;
          assert before[i] == places[i];
        }
      }
    }
  }

  /** Of several places with one key the last is found. */
  lemma {:induction false} LastPlaceFound(places: seq<Place>, fold: string -> string, i: nat)
    requires i < |places|
    requires forall j :: i < j < |places| ==> PathKey(places[j].path, fold) != PathKey(places[i].path, fold)
    ensures var key := PathKey(places[i].path, fold); key in Keyed(places, fold) && Keyed(places, fold)[key] == places[i].location
    decreases |places|
  {
    hide PathKey;
    if i < |places| - 1 {
      LastPlaceFound(places[..|places| - 1], fold, i);
    }
  }

  /** Every place of the store is listed. */
  lemma PlaceListed(s: State, rooms: seq<Room>, containers: seq<Container>, fold: string -> string, place: Location)
    returns (i: int)
    requires Sound(s) && Indexes(s, rooms, containers) && LocationExists(s, place)
    ensures 0 <= i < |IndexOf(rooms, containers, fold).places| && IndexOf(rooms, containers, fold).places[i].location == place
  {
    hide Sound, IndexOf, DescribesPlace, Keyed;
    SoundRows(s);
    PlacesAre(s, rooms, containers, fold);
    if place.kind.RoomKind? {
      assert s.rooms[place.id] in rooms && place == InRoom(place.id);
      i :| 0 <= i < |rooms| && rooms[i] == s.rooms[place.id];
    } else {
      assert s.containers[place.id] in containers && place == InContainer(place.id);
      var k :| 0 <= k < |containers| && containers[k] == s.containers[place.id];
      i := |rooms| + k;
    }
  }

  // ---- Resolving a path --------------------------------------------------------------------------

  ghost function Resolved(rooms: seq<Room>, containers: seq<Container>, name: string, fold: string -> string): Outcome<Location> {
    ResolveIn(IndexOf(rooms, containers, fold), name, fold)
  }

  /** A key is found exactly when some place has it, and finds one that does. */
  lemma KeyFinds(s: State, rooms: seq<Room>, containers: seq<Container>, fold: string -> string, key: string)
    requires Sound(s) && Indexes(s, rooms, containers)
    ensures var byPath := IndexOf(rooms, containers, fold).byPath;
      && (key in byPath <==> exists place :: LocationExists(s, place) && KeyOfPlace(s, place, fold) == key)
      && (key in byPath ==> LocationExists(s, byPath[key]) && KeyOfPlace(s, byPath[key], fold) == key)
  {
    hide Sound, NamesOf, PathText, PathKey;
    var index := IndexOf(rooms, containers, fold);
    PlacesAre(s, rooms, containers, fold);
    KeyedMeans(index.places, fold, key);
    forall i | 0 <= i < |index.places|
      ensures LocationExists(s, index.places[i].location)
      ensures KeyOfPlace(s, index.places[i].location, fold) == PathKey(index.places[i].path, fold)
    {
      assert DescribesPlace(s, index.places[i], fold);
    }
    forall place | LocationExists(s, place) && KeyOfPlace(s, place, fold) == key ensures key in index.byPath {
      var i := PlaceListed(s, rooms, containers, fold, place);
    }
  }

  /** A rendered path resolves to the place its key finds. */
  lemma PathResolves(s: State, rooms: seq<Room>, containers: seq<Container>, fold: string -> string, place: Location)
    requires Sound(s) && Indexes(s, rooms, containers) && LocationExists(s, place)
    ensures var key, byPath := KeyOfPlace(s, place, fold), IndexOf(rooms, containers, fold).byPath;
      && key in byPath && LocationExists(s, byPath[key]) && KeyOfPlace(s, byPath[key], fold) == key
      && Resolved(rooms, containers, PathText(NamesOf(s, place)), fold) == Ok(byPath[key])
  {
    hide Sound, Indexes, NamesOf, PathText, PathKey, IndexOf;
    NamesAreKept(s, place, |NamesOf(s, place)|);
    PathIsTrimmed(NamesOf(s, place));
    KeyFinds(s, rooms, containers, fold, KeyOfPlace(s, place, fold));
  }

  /** Resolving takes rendering back for every place of the store. */
  ghost predicate PathsTakenBack(s: State, rooms: seq<Room>, containers: seq<Container>, fold: string -> string)
    requires Sound(s)
  {
    forall place :: (LocationExists(s, place) ==> Resolved(rooms, containers, PathText(NamesOf(s, place)), fold) == Ok(place))
  }

  /**
   In every inventory, resolving the path of each place gives that place, exactly when no
   two places are looked up by the same key.
   */
  lemma ResolveInvertsPath(s: State, rooms: seq<Room>, containers: seq<Container>, fold: string -> string)
    requires Sound(s) && Indexes(s, rooms, containers)
    ensures PathsTakenBack(s, rooms, containers, fold) <==> PathKeysApart(s, fold)
  {
    hide Sound, Indexes, NamesOf, PathText, PathKey, Resolved, IndexOf, KeyOfPlace;
    if PathKeysApart(s, fold) {
      forall place | LocationExists(s, place)
        ensures Resolved(rooms, containers, PathText(NamesOf(s, place)), fold) == Ok(place)
      {
        PathResolves(s, rooms, containers, fold, place);
      }
    }
    if PathsTakenBack(s, rooms, containers, fold) {
      forall p, q | LocationExists(s, p) && LocationExists(s, q) && KeyOfPlace(s, p, fold) == KeyOfPlace(s, q, fold)
        ensures p == q
      {
        PathResolves(s, rooms, containers, fold, p);
        PathResolves(s, rooms, containers, fold, q);
      }
    }
  }

  // ---- Names without separators -----------------------------------------------------------------

  /**
   Where no name contains a separator, as it is or folded, two places share a key only
   because two names in one scope fold to the same.
   */
  lemma PlainKeysApart(s: State, fold: string -> string)
    requires Sound(s) && NoSeparators(s) && FoldsPlainly(s, fold)
    ensures PathKeysApart(s, fold) <==> ScopesApart(s, fold)
  {
    hide Sound, NoSeparators, FoldsPlainly, NamesOf, FoldedNames, KeyOfPlace;
    if ScopesApart(s, fold) {
      forall p, q | LocationExists(s, p) && LocationExists(s, q) && KeyOfPlace(s, p, fold) == KeyOfPlace(s, q, fold)
        ensures p == q
      {
        KeysByNames(s, p, q, fold);
        FoldedNamesApart(s, p, q, fold, |NamesOf(s, p)|);
      }
    }
    if PathKeysApart(s, fold) {
      forall a, b | a in s.rooms && b in s.rooms && fold(s.rooms[a].name) == fold(s.rooms[b].name) ensures a == b {
        SameFoldedRooms(s, a, b, fold);
        KeysByNames(s, InRoom(a), InRoom(b), fold);
      }
      forall a, b | a in s.containers && b in s.containers && Siblings(s, a, b) && SameFold(s, a, b, fold) ensures a == b {
        SameFoldedSiblings(s, a, b, fold);
        KeysByNames(s, InContainer(a), InContainer(b), fold);
      }
    }
  }

  lemma SameFoldedRooms(s: State, a: int, b: int, fold: string -> string)
    requires Sound(s) && a in s.rooms && b in s.rooms && fold(s.rooms[a].name) == fold(s.rooms[b].name)
    ensures FoldedNames(s, InRoom(a), fold) == FoldedNames(s, InRoom(b), fold)
  {
    hide Sound, NamesOf;
    NamesOfRoom(s, a);
    NamesOfRoom(s, b);
  }

  lemma SameFoldedSiblings(s: State, a: int, b: int, fold: string -> string)
    requires Sound(s) && a in s.containers && b in s.containers && Siblings(s, a, b) && SameFold(s, a, b, fold)
    ensures FoldedNames(s, InContainer(a), fold) == FoldedNames(s, InContainer(b), fold)
  {
    hide Sound, NamesOf;
    NamesOfContainer(s, a);
    NamesOfContainer(s, b);
  }

  // ---- Names that look like a path ------------------------------------------------------------

  /** The two share a key when the name of the room has the key of the path "A > B". */
  lemma BesideClashes(s: State, name: string, fold: string -> string)
    requires Sound(s) && Beside(s, name) && PathKey(name, fold) == PathKey("A > B", fold)
    ensures !PathKeysApart(s, fold)
  {
    hide Sound, NamesOf, PathKey;
    NamesOfRoom(s, 1);
    NamesOfRoom(s, 2);
    NamesOfContainer(s, 1);
    assert PathText([name]) == name && PathText(["A", "B"]) == "A > B";
    assert KeyOfPlace(s, InRoom(1), fold) == KeyOfPlace(s, InContainer(1), fold);
  }

  /**
   With a separator inside a name, names in one scope can stay different, and still, however
   text is folded, a room "A > B" and the container cannot be told apart by their paths.
   */
  lemma SeparatorsClash() returns (s: State)
    ensures Reachable(s) && Sound(s) && ScopesApart(s, ScopeKey)
    ensures forall fold: string -> string :: !PathKeysApart(s, fold)
  {
    hide Sound, PathKeysApart, PathKey;
    TrimIdentity("A > B");
    assert |ScopeKey("A > B")| == 5 && |ScopeKey("A")| == 1;
    s := StoredBeside("A > B");
    forall fold: string -> string ensures !PathKeysApart(s, fold) {
      BesideClashes(s, "A > B", fold);
    }
  }

  /** A name with a letter that decomposes into a separator and a mark, which folding strips. */
  const FOLDS_TO_PATH := "A\U{226F}B"

  /**
   With a separator that only folding makes it is the same: no name contains one, names in
   one scope stay different, and the room and the container share a key.
   */
  lemma FoldedSeparatorsClash(fold: string -> string) returns (s: State)
    requires fold(FOLDS_TO_PATH) == "a>b" && fold("A") == "a" && fold("B") == "b"
    ensures Reachable(s) && Sound(s) && NoSeparators(s) && ScopesApart(s, fold)
    ensures !FoldsPlainly(s, fold) && !PathKeysApart(s, fold)
  {
    hide Sound, PathKeysApart, PathKey;
    TrimIdentity(FOLDS_TO_PATH);
    assert |ScopeKey(FOLDS_TO_PATH)| == 3 && |ScopeKey("A")| == 1;
    s := StoredBeside(FOLDS_TO_PATH);
    assert "a>b"[1] == '>';
    assert 1 in s.rooms && '>' in fold(s.rooms[1].name);
    FoldedSeparatorKeys(fold);
    BesideClashes(s, FOLDS_TO_PATH, fold);
  }

  lemma FoldedSeparatorKeys(fold: string -> string)
    requires fold(FOLDS_TO_PATH) == "a>b" && fold("A") == "a" && fold("B") == "b"
    ensures PathKey(FOLDS_TO_PATH, fold) == PathKey("A > B", fold)
  {
    TrimIdentity(FOLDS_TO_PATH);
    KeyOfName(FOLDS_TO_PATH, fold);
    assert PathText(["A", "B"]) == "A > B";
    KeyOfPath(["A", "B"], fold);
    assert FoldAll(["A", "B"], fold) == ["a", "b"];
    assert Join(["a", "b"], ">") == "a>b";
  }
}
