/**
 What a container move does to the tree: which paths it rewrites, and that the
 event it records is enough to undo it.
 */
module StoreTree {
  import opened Inventory
  import opened Forest
  import opened StoreModel
  import opened StoreInvariant

  lemma {:induction false} OneRoomUpwards(cs: Containers, x: int, y: int)
    requires IsForest(cs) && ParentsSound(cs)
    requires x in cs && Reaches(ParentLinks(cs), x, y)
    ensures y in cs && cs[y].roomId == cs[x].roomId
    decreases Height(ParentLinks(cs), x)
  {
    if x != y {
      OneRoomUpwards(cs, cs[x].parent.value, y);
    }
  }

  /** The containers from the top of the room down to `x`. */
  ghost function PathRows(cs: Containers, x: int): seq<Container>
    requires IsForest(cs) && x in cs
    decreases Height(ParentLinks(cs), x)
  {
    (if x in ParentLinks(cs) then PathRows(cs, ParentLinks(cs)[x]) else []) + [cs[x]]
  }

  ghost function NamesDown(cs: Containers, x: int): (names: seq<string>)
    requires IsForest(cs) && x in cs
    ensures |names| > 0
    decreases Height(ParentLinks(cs), x)
  {
    (if x in ParentLinks(cs) then NamesDown(cs, ParentLinks(cs)[x]) else []) + [cs[x].name]
  }

  predicate PlaceKnown(rooms: Rooms, cs: Containers, place: Location) {
    if place.kind.RoomKind? then place.id in rooms
    else place.kind.ContainerKind? && place.id in cs && cs[place.id].roomId in rooms
  }

  /** The names that lead to a place: the room first, then container by container. */
  ghost function PlaceNames(rooms: Rooms, cs: Containers, place: Location): (names: seq<string>)
    requires IsForest(cs) && PlaceKnown(rooms, cs, place)
    ensures |names| > 0
  {
    if place.kind.RoomKind? then [rooms[place.id].name]
    else [rooms[cs[place.id].roomId].name] + NamesDown(cs, place.id)
  }

  /** `next` is `cs` with `id` hung from `parent`, names untouched. */
  ghost predicate Rehangs(cs: Containers, next: Containers, id: int, parent: Option<int>) {
    && IsForest(cs) && IsForest(next) && next.Keys == cs.Keys && id in cs
    && ParentLinks(next) == Rehung(ParentLinks(cs), id, parent)
    && (forall x :: x in cs ==> next[x].name == cs[x].name)
  }

  lemma MoveRehangs(cs: Containers, id: int, roomId: int, parent: Option<int>)
    requires IsForest(cs) && id in cs
    requires parent.Some? ==> parent.value in cs && !WalkMeets(cs, parent.value, id)
    ensures Rehangs(cs, MovedRows(cs, id, roomId, parent), id, parent)
  {
    MovedIsForest(cs, id, roomId, parent);
    LinksAfterMove(cs, id, roomId, parent);
  }

  lemma {:induction false} NamesOutside(cs: Containers, next: Containers, id: int, parent: Option<int>, x: int)
    requires Rehangs(cs, next, id, parent)
    requires x in cs && !Reaches(ParentLinks(cs), x, id)
    ensures NamesDown(next, x) == NamesDown(cs, x)
    decreases Height(ParentLinks(cs), x)
  {
    var up := ParentLinks(cs);
    if x in up {
      NamesOutside(cs, next, id, parent, up[x]);
    }
  }

  lemma NamesOfMoved(cs: Containers, next: Containers, id: int, parent: Option<int>)
    requires Rehangs(cs, next, id, parent)
    requires parent.Some? ==> parent.value in cs && !Reaches(ParentLinks(cs), parent.value, id)
    ensures NamesDown(next, id) == (if parent.Some? then NamesDown(cs, parent.value) else []) + [cs[id].name]
    ensures NamesDown(cs, id)[|NamesDown(cs, id)| - 1..] == [cs[id].name]
  {
    if parent.Some? {
      NamesOutside(cs, next, id, parent, parent.value);
    }
  }

  lemma {:induction false} NamesInside(cs: Containers, next: Containers, id: int, parent: Option<int>, x: int)
    requires Rehangs(cs, next, id, parent)
    requires parent.Some? ==> parent.value in cs && !Reaches(ParentLinks(cs), parent.value, id)
    requires x in cs && Reaches(ParentLinks(cs), x, id)
    ensures |NamesDown(cs, id)| <= |NamesDown(cs, x)|
    ensures NamesDown(next, x) ==
      (if parent.Some? then NamesDown(cs, parent.value) else []) + NamesDown(cs, x)[|NamesDown(cs, id)| - 1..]
    decreases Height(ParentLinks(cs), x)
  {
    hide Acyclic, NamesDown;
    var up := ParentLinks(cs);
    if x == id {
      NamesOfMoved(cs, next, id, parent);
    } else {
      var above := if parent.Some? then NamesDown(cs, parent.value) else [];
      NamesInside(cs, next, id, parent, up[x]);
      NamesStep(cs, x);
      NamesStep(next, x);
      SpliceLast(above, NamesDown(cs, up[x]), |NamesDown(cs, id)| - 1, cs[x].name);
    }
  }

  lemma NamesStep(cs: Containers, x: int)
    requires IsForest(cs) && x in ParentLinks(cs)
    ensures NamesDown(cs, x) == NamesDown(cs, ParentLinks(cs)[x]) + [cs[x].name]
  {
  }

  lemma SpliceLast(above: seq<string>, names: seq<string>, k: nat, name: string)
    requires k <= |names|
    ensures (above + names[k..]) + [name] == above + (names + [name])[k..]
  {
  }

  /**
   The path of `x` after `id` moved to `destination`. Inside the moved subtree
   the path of the destination replaces what came before `id`; elsewhere nothing
   changes.
   */
  ghost predicate PathRewritten(rooms: Rooms, cs: Containers, next: Containers, id: int, destination: Location, x: int)
    requires IsForest(cs) && IsForest(next)
    requires PlaceKnown(rooms, cs, destination) && PlaceKnown(rooms, cs, InContainer(id))
    requires PlaceKnown(rooms, cs, InContainer(x)) && PlaceKnown(rooms, next, InContainer(x))
  {
    var before, after := PlaceNames(rooms, cs, InContainer(x)), PlaceNames(rooms, next, InContainer(x));
    var above := |PlaceNames(rooms, cs, InContainer(id))| - 1;
    if Reaches(ParentLinks(cs), x, id)
    then above < |before| && after == PlaceNames(rooms, cs, destination) + before[above..]
    else after == before
  }

  /** The subtree of `id` gets the room, the rest keeps its own. */
  ghost predicate NewRooms(cs: Containers, next: Containers, id: int, roomId: int)
    requires IsForest(cs) && next.Keys == cs.Keys
  {
    forall x :: x in cs ==> next[x].roomId == if Reaches(ParentLinks(cs), x, id) then roomId else cs[x].roomId
  }

  lemma MoveGivesRooms(cs: Containers, id: int, roomId: int, parent: Option<int>)
    requires IsForest(cs) && id in cs
    ensures NewRooms(cs, MovedRows(cs, id, roomId, parent), id, roomId)
  {
    forall x | x in cs ensures WalkMeets(cs, x, id) <==> Reaches(ParentLinks(cs), x, id) {
      MeetsIsReaches(cs, x, id);
    }
  }

  lemma SplicePath(room: string, names: seq<string>, k: nat, newRoom: string, above: seq<string>)
    requires 0 < k <= |names|
    ensures [newRoom] + (above + names[k - 1..]) == ([newRoom] + above) + ([room] + names)[k..]
  {
  }

  lemma PathOfMoved(rooms: Rooms, cs: Containers, next: Containers, id: int, destination: Location, x: int, above: seq<string>)
    requires IsForest(cs) && IsForest(next)
    requires PlaceKnown(rooms, cs, destination) && PlaceKnown(rooms, cs, InContainer(id))
    requires PlaceKnown(rooms, cs, InContainer(x)) && PlaceKnown(rooms, next, InContainer(x))
    requires Reaches(ParentLinks(cs), x, id)
    requires |NamesDown(cs, id)| <= |NamesDown(cs, x)|
    requires NamesDown(next, x) == above + NamesDown(cs, x)[|NamesDown(cs, id)| - 1..]
    requires PlaceNames(rooms, cs, destination) == [rooms[next[x].roomId].name] + above
    ensures PathRewritten(rooms, cs, next, id, destination, x)
  {
    hide Acyclic, NamesDown, Chain;
    SplicePath(rooms[cs[x].roomId].name, NamesDown(cs, x), |NamesDown(cs, id)|, rooms[next[x].roomId].name, above);
  }

  lemma PathOfOther(rooms: Rooms, cs: Containers, next: Containers, id: int, destination: Location, x: int)
    requires Rehangs(cs, next, id, DestinationParent(destination))
    requires PlaceKnown(rooms, cs, destination) && PlaceKnown(rooms, cs, InContainer(id))
    requires PlaceKnown(rooms, cs, InContainer(x)) && PlaceKnown(rooms, next, InContainer(x))
    requires !Reaches(ParentLinks(cs), x, id)
    requires next[x].roomId == cs[x].roomId
    ensures PathRewritten(rooms, cs, next, id, destination, x)
  {
    NamesOutside(cs, next, id, DestinationParent(destination), x);
  }

  lemma MovedPath(rooms: Rooms, cs: Containers, next: Containers, id: int, destination: Location, x: int)
    requires Rehangs(cs, next, id, DestinationParent(destination))
    requires PlaceKnown(rooms, cs, destination) && PlaceKnown(rooms, cs, InContainer(id))
    requires PlaceKnown(rooms, cs, InContainer(x)) && PlaceKnown(rooms, next, InContainer(x))
    requires NewRooms(cs, next, id, if destination.kind.RoomKind? then destination.id else cs[destination.id].roomId)
    requires destination.kind.ContainerKind? ==> !Reaches(ParentLinks(cs), destination.id, id)
    ensures PathRewritten(rooms, cs, next, id, destination, x)
  {
    var parent := DestinationParent(destination);
    if Reaches(ParentLinks(cs), x, id) {
      NamesInside(cs, next, id, parent, x);
      PathOfMoved(rooms, cs, next, id, destination, x, if parent.Some? then NamesDown(cs, parent.value) else []);
    } else {
      PathOfOther(rooms, cs, next, id, destination, x);
    }
  }

  /** What a successful move leaves behind, and what it had checked. */
  lemma MoveOutcome(s: State, id: int, destination: Location)
    requires MoveContainer(s, id, destination).1.Ok?
    ensures id in s.containers && LocationExists(s, destination) && ValidLocation(destination)
    ensures destination.kind.ContainerKind? ==> !WalkMeets(s.containers, destination.id, id)
    ensures MoveContainer(s, id, destination).0 == s.(
      containers := MovedRows(s.containers, id, DestinationRoom(s, destination), DestinationParent(destination)),
      log := s.log + [ContainerMoved(id, Origin(s.containers[id]), destination)])
  {
  }

  /** A move rewrites paths exactly, and leaves rooms and items alone. */
  lemma MoveRewritesPaths(s: State, id: int, destination: Location, x: int)
    requires Sound(s) && MoveContainer(s, id, destination).1.Ok?
    requires x in s.containers
    ensures var t := MoveContainer(s, id, destination).0;
      && t.items == s.items && t.rooms == s.rooms && t.containers.Keys == s.containers.Keys
      && id in s.containers && IsForest(t.containers)
      && PlaceKnown(s.rooms, s.containers, destination) && PlaceKnown(s.rooms, s.containers, InContainer(id))
      && PlaceKnown(s.rooms, s.containers, InContainer(x)) && PlaceKnown(s.rooms, t.containers, InContainer(x))
      && PathRewritten(s.rooms, s.containers, t.containers, id, destination, x)
  {
    var cs, roomId, parent := s.containers, DestinationRoom(s, destination), DestinationParent(destination);
    MoveOutcome(s, id, destination);
    MoveRehangs(cs, id, roomId, parent);
    MoveGivesRooms(cs, id, roomId, parent);
    if parent.Some? {
      MeetsIsReaches(cs, parent.value, id);
    }
    MovedPath(s.rooms, cs, MovedRows(cs, id, roomId, parent), id, destination, x);
  }

  lemma SubtreeSurvivesMove(cs: Containers, id: int, roomId: int, parent: Option<int>, x: int)
    requires IsForest(cs) && id in cs
    requires parent.Some? ==> parent.value in cs && !WalkMeets(cs, parent.value, id)
    ensures WalkMeets(cs, x, id) <==> WalkMeets(MovedRows(cs, id, roomId, parent), x, id)
  {
    var next := MovedRows(cs, id, roomId, parent);
    MovedIsForest(cs, id, roomId, parent);
    LinksAfterMove(cs, id, roomId, parent);
    SubtreeUnchanged(ParentLinks(cs), ParentLinks(next), id, x);
    MeetsIsReaches(cs, x, id);
    MeetsIsReaches(next, x, id);
  }

  lemma ParentOutsideSubtree(cs: Containers, id: int)
    requires IsForest(cs) && ParentsSound(cs) && id in cs && cs[id].parent.Some?
    ensures !WalkMeets(cs, cs[id].parent.value, id)
  {
    var up := ParentLinks(cs);
    MeetsIsReaches(cs, up[id], id);
    if Reaches(up, up[id], id) {
      ReachesHeight(up, up[id], id);
    }
  }

  /** Moving back puts every row of the subtree where it was. */
  lemma MovedBack(cs: Containers, id: int, roomId: int, parent: Option<int>)
    requires IsForest(cs) && ParentsSound(cs) && id in cs
    requires parent.Some? ==> parent.value in cs && !WalkMeets(cs, parent.value, id)
    ensures MovedRows(MovedRows(cs, id, roomId, parent), id, cs[id].roomId, cs[id].parent) == cs
  {
    var next := MovedRows(cs, id, roomId, parent);
    forall x | x in cs ensures MovedRow(next, id, cs[id].roomId, cs[id].parent, x) == cs[x] {
      SubtreeSurvivesMove(cs, id, roomId, parent, x);
      MeetsIsReaches(cs, x, id);
      if WalkMeets(cs, x, id) {
        OneRoomUpwards(cs, x, id);
      }
    }
  }

  lemma MoveSucceeds(s: State, id: int, destination: Location)
    requires id in s.containers && ValidLocation(destination) && LocationExists(s, destination)
    requires destination.kind.ContainerKind? ==> !WalkMeets(s.containers, destination.id, id)
    requires ContainerNamesUnique(
      MovedRows(s.containers, id, DestinationRoom(s, destination), DestinationParent(destination)))
    ensures MoveContainer(s, id, destination) == (s.(
      containers := MovedRows(s.containers, id, DestinationRoom(s, destination), DestinationParent(destination)),
      log := s.log + [ContainerMoved(id, Origin(s.containers[id]), destination)]), Ok(()))
  {
  }

  /** Where a container came from is a place, and one a move may go back to. */
  lemma OriginLegal(s: State, id: int, roomId: int, parent: Option<int>)
    requires Sound(s) && id in s.containers
    requires parent.Some? ==> parent.value in s.containers && !WalkMeets(s.containers, parent.value, id)
    ensures var origin := Origin(s.containers[id]);
      var t := s.(containers := MovedRows(s.containers, id, roomId, parent));
      && ValidLocation(origin) && LocationExists(t, origin)
      && DestinationRoom(t, origin) == s.containers[id].roomId
      && (origin.kind.ContainerKind? ==> !WalkMeets(t.containers, origin.id, id))
  {
    var cs := s.containers;
    if cs[id].parent.Some? {
      ParentOutsideSubtree(cs, id);
      SubtreeSurvivesMove(cs, id, roomId, parent, cs[id].parent.value);
    }
  }

  /**
   A move is undone by the event it recorded: its origin is a legal destination
   right after the move, and moving there restores every room and parent.
   */
  lemma MoveUndoneByEvent(s: State, id: int, destination: Location)
    requires Sound(s) && MoveContainer(s, id, destination).1.Ok?
    ensures var t := MoveContainer(s, id, destination).0;
      && |t.log| == |s.log| + 1
      && var event := t.log[|s.log|];
      && event.ContainerMoved? && event.containerId == id && event.destination == destination
      && var (u, r) := MoveContainer(t, id, event.origin);
      && r.Ok? && u.rooms == s.rooms && u.containers == s.containers && u.items == s.items
  {
    var cs, roomId, parent := s.containers, DestinationRoom(s, destination), DestinationParent(destination);
    var t, origin := MoveContainer(s, id, destination).0, Origin(cs[id]);
    MoveOutcome(s, id, destination);
    MovedBack(cs, id, roomId, parent);
    OriginLegal(s, id, roomId, parent);
    assert DestinationParent(origin) == cs[id].parent;
    assert MovedRows(t.containers, id, DestinationRoom(t, origin), DestinationParent(origin)) == cs;
    MoveSucceeds(t, id, origin);
  }

  /** Move refuses with a cycle exactly when the new tree would be cyclic. */
  lemma MoveCycleExact(s: State, id: int, destination: Location)
    requires Sound(s)
    requires ValidLocation(destination) && id in s.containers && LocationExists(s, destination)
    ensures MoveContainer(s, id, destination).1 == Err(Cycle) <==>
      !Acyclic(Rehung(ParentLinks(s.containers), id, DestinationParent(destination)))
  {
    CycleGuardExact(s.containers, id, DestinationParent(destination));
  }

  /** Update refuses with a cycle exactly when the new tree would be cyclic. */
  lemma UpdateCycleExact(s: State, container: Container)
    requires Sound(s)
    requires ValidContainer(NormalContainer(container)) && container.id in s.containers
    requires s.containers[container.id].roomId == container.roomId
    requires ParentProblem(s.containers, container.parent, container.roomId).None?
    ensures UpdateContainer(s, container).1 == Err(Cycle) <==>
      !Acyclic(Rehung(ParentLinks(s.containers), container.id, container.parent))
  {
    CycleGuardExact(s.containers, container.id, container.parent);
  }
}
