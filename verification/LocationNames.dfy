/** What a bare name resolves to, and what an ambiguous answer lists. */
module LocationNames {
  import opened Sequences
  import opened Text
  import opened Inventory
  import opened StoreModel
  import opened StoreInvariant
  import opened Paths
  import opened LocationIndex
  import opened LocationResolve

  ghost predicate LocationsDiffer(places: seq<Place>) {
    forall i, j :: 0 <= i < j < |places| ==> places[i].location != places[j].location
  }

  lemma {:induction false} CarryingFilters(places: seq<Place>, wanted: string)
    ensures forall p :: p in Carrying(places, wanted) <==> p in places && p.name == wanted
    ensures LocationsDiffer(places) ==> LocationsDiffer(Carrying(places, wanted))
  {
    if places != [] {
      var before, last := places[..|places| - 1], places[|places| - 1];
      CarryingFilters(before, wanted);
      assert places == before + [last];
      var carrying := Carrying(before, wanted);
      if LocationsDiffer(places) {
        assert LocationsDiffer(before);
        forall i | 0 <= i < |carrying| ensures carrying[i].location != last.location {
          assert carrying[i] in before;
        }
      }
    }
  }

  lemma PlacesDiffer(s: State, rooms: seq<Room>, containers: seq<Container>, fold: string -> string)
    requires Sound(s) && Indexes(s, rooms, containers)
    ensures LocationsDiffer(IndexOf(rooms, containers, fold).places)
  {
    hide Sound, IndexOf, DescribesPlace, Keyed;
    SoundRows(s);
    PlacesAre(s, rooms, containers, fold);
    var places := IndexOf(rooms, containers, fold).places;
    forall i, j | 0 <= i < j < |places| ensures places[i].location != places[j].location {
      if j < |rooms| {
        assert rooms[i] in rooms && rooms[j] in rooms;
        assert places[j].location == InRoom(rooms[j].id);
      } else {
        var b := containers[j - |rooms|];
        assert places[|rooms| + (j - |rooms|)].location == InContainer(b.id);
        if i >= |rooms| {
          var a := containers[i - |rooms|];
          assert places[|rooms| + (i - |rooms|)].location == InContainer(a.id);
          assert a in containers && b in containers;
        }
      }
    }
  }

  /** Some place is looked up by the key. */
  ghost predicate KeyTaken(s: State, key: string, fold: string -> string)
    requires Sound(s)
  {
    exists place :: LocationExists(s, place) && KeyOfPlace(s, place, fold) == key
  }

  /** The place itself carries the folded name. */
  predicate Bears(s: State, place: Location, wanted: string, fold: string -> string) {
    LocationExists(s, place) && fold(OwnName(s, place)) == wanted
  }

  function PlacesOf(places: seq<Place>): (locations: seq<Location>)
    ensures |locations| == |places| && forall i :: 0 <= i < |locations| ==> locations[i] == places[i].location
  {
    seq(|places|, i requires 0 <= i < |places| => places[i].location)
  }

  /** The matches of a name are the places that carry it, each once. */
  lemma MatchesAreBearers(s: State, rooms: seq<Room>, containers: seq<Container>, fold: string -> string, wanted: string)
    requires Sound(s) && Indexes(s, rooms, containers)
    ensures var matches := Carrying(IndexOf(rooms, containers, fold).places, wanted);
      && Distinct(PlacesOf(matches))
      && (forall place :: place in PlacesOf(matches) <==> Bears(s, place, wanted, fold))
      && (forall i :: 0 <= i < |matches| ==> DescribesPlace(s, matches[i], fold))
  {
    hide Sound, Indexes, NamesOf, PathText, IndexOf, Keyed;
    var places := IndexOf(rooms, containers, fold).places;
    var matches := Carrying(places, wanted);
    PlacesAre(s, rooms, containers, fold);
    PlacesDiffer(s, rooms, containers, fold);
    CarryingFilters(places, wanted);
    forall i | 0 <= i < |matches|
      ensures Bears(s, matches[i].location, wanted, fold) && DescribesPlace(s, matches[i], fold)
    {
      assert matches[i] in places;
    }
    forall place | Bears(s, place, wanted, fold) ensures place in PlacesOf(matches) {
      var k := PlaceListed(s, rooms, containers, fold, place);
      assert DescribesPlace(s, places[k], fold) && places[k] in matches;
      var i :| 0 <= i < |matches| && matches[i] == places[k];
      assert PlacesOf(matches)[i] == place;
    }
  }

  /** The candidates are the paths of the matches, one by one. */
  ghost predicate ListsPaths(s: State, paths: seq<string>, matches: seq<Location>)
    requires Sound(s)
  {
    |paths| == |matches|
    && forall i :: 0 <= i < |paths| ==> LocationExists(s, matches[i]) && paths[i] == PathText(NamesOf(s, matches[i]))
  }

  /** The paths resolve to the places, one to one. */
  ghost predicate ListsEach(rooms: seq<Room>, containers: seq<Container>, fold: string -> string, paths: seq<string>, matches: seq<Location>) {
    |paths| == |matches| && forall i :: 0 <= i < |matches| ==> Resolved(rooms, containers, paths[i], fold) == Ok(matches[i])
  }

  /** What a name that no key matches means: its only bearer, or one of several. */
  ghost predicate MeansOneOf(s: State, matches: seq<Location>, r: Outcome<Location>)
    requires Sound(s)
  {
    && (|matches| == 0 ==> r == Err(NotFound))
    && (|matches| == 1 ==> r == Ok(matches[0]))
    && (|matches| > 1 ==> r.Err? && r.error.Ambiguous? && ListsPaths(s, r.error.candidates, matches))
  }

  /**
   What any text resolves to, in any inventory. A place with the key of the text comes
   first; a text with a separator means nothing else. Otherwise it is the name of the
   places that carry it, which answer if there is one, and are all listed by their paths
   if there are several.
   */
  lemma NameResolves(s: State, rooms: seq<Room>, containers: seq<Container>, fold: string -> string, name: string)
    returns (matches: seq<Location>)
    requires Sound(s) && Indexes(s, rooms, containers)
    ensures Distinct(matches) && forall place :: place in matches <==> Bears(s, place, fold(Trim(name)), fold)
    ensures var trimmed, r := Trim(name), Resolved(rooms, containers, name, fold);
      var key := PathKey(trimmed, fold);
      if trimmed == "" then r == Err(Validation)
      else if KeyTaken(s, key, fold) then r.Ok? && LocationExists(s, r.value) && KeyOfPlace(s, r.value, fold) == key
      else if '>' in trimmed then r == Err(NotFound)
      else MeansOneOf(s, matches, r)
  {
    hide Sound, Indexes, NamesOf, PathText, PathKey, KeyOfPlace, IndexOf, Carrying, Trim, Distinct;
    var index, wanted := IndexOf(rooms, containers, fold), fold(Trim(name));
    KeyFinds(s, rooms, containers, fold, PathKey(Trim(name), fold));
    MatchesAreBearers(s, rooms, containers, fold, wanted);
    matches := PlacesOf(Carrying(index.places, wanted));
  }

  /** Where no two places share a key, the candidates of an ambiguous name resolve one by one. */
  lemma CandidatesResolve(s: State, rooms: seq<Room>, containers: seq<Container>, fold: string -> string,
      paths: seq<string>, matches: seq<Location>)
    requires Sound(s) && Indexes(s, rooms, containers) && PathKeysApart(s, fold)
    requires ListsPaths(s, paths, matches)
    ensures ListsEach(rooms, containers, fold, paths, matches)
  {
    hide Sound, Indexes, NamesOf, PathText, PathKeysApart, Resolved;
    ResolveInvertsPath(s, rooms, containers, fold);
  }

  // ---- Bare names, without separators ------------------------------------------------------------

  /** Only a room can have a key without separators, and its key is its folded name. */
  lemma PlainKeyIsRoom(s: State, place: Location, fold: string -> string, wanted: string)
    requires Sound(s) && LocationExists(s, place) && NoSeparators(s) && FoldsPlainly(s, fold)
    ensures place.kind.RoomKind? ==> '>' !in KeyOfPlace(s, place, fold)
    ensures '>' !in wanted ==>
      (KeyOfPlace(s, place, fold) == wanted <==> place.kind.RoomKind? && Bears(s, place, wanted, fold))
  {
    hide Sound, NamesOf, PathKey, PathText;
    NamesAreKept(s, place, |NamesOf(s, place)|);
    KeyOfPath(NamesOf(s, place), fold);
    NamesCount(s, place);
    if place.kind.RoomKind? {
      assert place == InRoom(place.id);
      NamesOfRoom(s, place.id);
      assert FoldAll([s.rooms[place.id].name], fold) == [fold(s.rooms[place.id].name)];
    } else {
      KeyHasSeparator(FoldAll(NamesOf(s, place), fold));
    }
  }

  /** A room carries the folded name. */
  ghost predicate RoomBears(s: State, wanted: string, fold: string -> string) {
    exists id :: Bears(s, InRoom(id), wanted, fold)
  }

  /** The key of a bare name is taken exactly when a room carries the name. */
  lemma BareKey(s: State, fold: string -> string, wanted: string)
    requires Sound(s) && NoSeparators(s) && FoldsPlainly(s, fold) && '>' !in wanted
    ensures KeyTaken(s, wanted, fold) <==> RoomBears(s, wanted, fold)
  {
    hide Sound, NoSeparators, FoldsPlainly, KeyOfPlace, Bears;
    if KeyTaken(s, wanted, fold) {
      var place :| LocationExists(s, place) && KeyOfPlace(s, place, fold) == wanted;
      PlainKeyIsRoom(s, place, fold, wanted);
      assert place == InRoom(place.id);
    }
    if RoomBears(s, wanted, fold) {
      var id :| Bears(s, InRoom(id), wanted, fold);
      BearerExists(s, InRoom(id), wanted, fold);
      PlainKeyIsRoom(s, InRoom(id), fold, wanted);
    }
  }

  lemma BearerExists(s: State, place: Location, wanted: string, fold: string -> string)
    requires Bears(s, place, wanted, fold)
    ensures LocationExists(s, place)
  {
  }

  /**
   A bare name means a room that carries it, else its only container. Several containers
   are all listed; and where names in one scope stay different after folding, the paths
   they are listed by resolve to them one by one. A name that only folding makes look like
   a path is one: it means a container with that key, or nothing.
   */
  lemma BareNameResolves(s: State, rooms: seq<Room>, containers: seq<Container>, fold: string -> string, name: string)
    returns (matches: seq<Location>)
    requires Sound(s) && Indexes(s, rooms, containers) && NoSeparators(s) && FoldsPlainly(s, fold)
    requires Trim(name) != "" && '>' !in Trim(name)
    ensures var wanted, r := fold(Trim(name)), Resolved(rooms, containers, name, fold);
      if '>' in wanted then
        if KeyTaken(s, wanted, fold) then
          r.Ok? && LocationExists(s, r.value) && r.value.kind.ContainerKind? && KeyOfPlace(s, r.value, fold) == wanted
        else r == Err(NotFound)
      else if RoomBears(s, wanted, fold) then
        r.Ok? && r.value.kind.RoomKind? && Bears(s, r.value, wanted, fold)
      else
        && Distinct(matches) && (forall place :: place in matches <==> Bears(s, place, wanted, fold))
        && (forall place :: place in matches ==> place.kind.ContainerKind?)
        && MeansOneOf(s, matches, r)
        && (|matches| > 1 && ScopesApart(s, fold) ==> ListsEach(rooms, containers, fold, r.error.candidates, matches))
  {
    hide Sound, Indexes, NoSeparators, FoldsPlainly, KeyOfPlace, PathKey, PathText, NamesOf, ScopesApart, PathKeysApart, Resolved, Distinct, Bears;
    hide KeyTaken, RoomBears, ListsPaths, ListsEach;
    var wanted, r := fold(Trim(name)), Resolved(rooms, containers, name, fold);
    TrimTwice(name);
    KeyOfName(Trim(name), fold);
    matches := NameResolves(s, rooms, containers, fold, name);
    if '>' in wanted {
      if KeyTaken(s, wanted, fold) {
        PlainKeyIsRoom(s, r.value, fold, wanted);
      } else {
        NobodyBears(s, fold, wanted, matches);
      }
      return;
    }
    BareKey(s, fold, wanted);
    if RoomBears(s, wanted, fold) {
      PlainKeyIsRoom(s, r.value, fold, wanted);
    } else {
      forall place | place in matches ensures place.kind.ContainerKind? {
        NotARoom(s, place, wanted, fold);
      }
      PlainKeysApart(s, fold);
      if |matches| > 1 && ScopesApart(s, fold) {
        CandidatesResolve(s, rooms, containers, fold, r.error.candidates, matches);
      }
    }
  }

  lemma PlainBearer(s: State, place: Location, wanted: string, fold: string -> string)
    requires FoldsPlainly(s, fold) && Bears(s, place, wanted, fold)
    ensures '>' !in wanted
  {
  }

  /** No name folds to a text with a separator. */
  lemma NobodyBears(s: State, fold: string -> string, wanted: string, matches: seq<Location>)
    requires FoldsPlainly(s, fold) && '>' in wanted
    requires forall place :: place in matches ==> Bears(s, place, wanted, fold)
    ensures matches == []
  {
    hide FoldsPlainly, Bears;
    if |matches| > 0 {
      PlainBearer(s, matches[0], wanted, fold);
    }
  }

  lemma NotARoom(s: State, place: Location, wanted: string, fold: string -> string)
    requires Bears(s, place, wanted, fold) && !RoomBears(s, wanted, fold)
    ensures place.kind.ContainerKind?
  {
    assert place.kind.RoomKind? ==> place == InRoom(place.id);
  }
}
