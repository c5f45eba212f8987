/**
 The repositories over the three tables and the event log. Every mutation is a
 transaction: it remembers the state it began in, writes, and puts that state back
 when a check or a unique index refuses what was written.

 The recursive statements use UNION ALL, so nothing in them stops a walk that goes
 in circles: they end because the store is sound, which is what they require.
 */
module Store {
  import opened Sequences
  import opened Inventory
  import opened Forest
  import opened StoreModel
  import opened StoreInvariant
  import opened StoreTree

  /** `rows` are the rows of a table, each once, in some order. */
  ghost predicate Lists<R(!new)>(rows: seq<R>, table: map<int, R>) {
    && Distinct(rows)
    && (forall row :: row in rows ==> exists id :: id in table && table[id] == row)
    && (forall id :: id in table ==> table[id] in rows)
  }

  method ListRows<R(==,!new)>(table: map<int, R>) returns (rows: seq<R>)
    requires forall a, b :: a in table && b in table && table[a] == table[b] ==> a == b
    ensures Lists(rows, table)
  {
    rows := [];
    var left := table.Keys;
    while left != {}
      invariant left <= table.Keys
      invariant forall id :: id in left ==> table[id] !in rows
      invariant forall id :: id in table && id !in left ==> table[id] in rows
      invariant forall row :: row in rows ==> exists id :: id in table && table[id] == row
      invariant Distinct(rows)
      decreases |left|
    {
      var id := TakeOne(left);
      rows := rows + [table[id]];
      left := left - {id};
    }
  }

  // ---- The recursive statements -------------------------------------------------

  /** The rows of the recursive walk from `start` to the top of its tree. */
  method AncestorWalk(cs: Containers, start: int) returns (rows: seq<int>)
    requires IsForest(cs) && ParentsSound(cs)
    ensures rows == Chain(ParentLinks(cs), start)
    ensures Distinct(rows)
    ensures forall id :: id in rows <==> WalkMeets(cs, start, id)
  {
    hide Distinct, Acyclic, WalkMeets;
    ghost var up := ParentLinks(cs);
    var current := start;
    rows := [start];
    while current in cs && cs[current].parent.Some?
      invariant PartOfChain(up, rows) && rows[0] == start && rows[|rows| - 1] == current
      decreases Height(up, current)
    {
      ClimbChain(up, rows);
      current := cs[current].parent.value;
      rows := rows + [current];
    }
    ChainDistinct(up, start);
    MeetsAll(cs, start);
  }

  /** `rows` is a chain but for what hangs above its last node. */
  ghost predicate PartOfChain(up: Links, rows: seq<int>)
    requires Acyclic(up)
  {
    rows != [] && Chain(up, rows[0]) == rows[..|rows| - 1] + Chain(up, rows[|rows| - 1])
  }

  lemma ClimbChain(up: Links, rows: seq<int>)
    requires Acyclic(up) && PartOfChain(up, rows) && rows[|rows| - 1] in up
    ensures PartOfChain(up, rows + [up[rows[|rows| - 1]]])
  {
    var below, last := rows[..|rows| - 1], rows[|rows| - 1];
    var above := Chain(up, up[last]);
    var longer := rows + [up[last]];
    assert rows == below + [last];
    assert Chain(up, last) == [last] + above;
    Regroup(below, [last], above);
    assert longer[..|longer| - 1] == rows;
  }

  lemma MeetsAll(cs: Containers, start: int)
    requires IsForest(cs)
    ensures forall id :: id in Chain(ParentLinks(cs), start) <==> WalkMeets(cs, start, id)
  {
    WalkUpIsChain(ParentLinks(cs), start);
  }

  method ChildrenOf(cs: Containers, id: int) returns (children: seq<int>)
    ensures Distinct(children)
    ensures forall x :: x in children <==> x in cs && cs[x].parent == Some(id)
  {
    children := [];
    var left := cs.Keys;
    while left != {}
      invariant left <= cs.Keys
      invariant Distinct(children)
      invariant forall x :: x in children <==> x in cs && x !in left && cs[x].parent == Some(id)
      decreases |left|
    {
      var x := TakeOne(left);
      if cs[x].parent == Some(id) {
        children := children + [x];
      }
      left := left - {x};
    }
  }

  /** The containers found so far, in `rows` and `queue`, are part of the subtree. */
  ghost predicate PartOfSubtree(up: Links, id: int, rows: seq<int>, queue: seq<int>)
    requires Acyclic(up)
  {
    Found(up, id, rows, rows + queue)
  }

  /** `found` are nodes of the subtree, among them all children of `rows`. */
  ghost predicate Found(up: Links, id: int, rows: seq<int>, found: seq<int>)
    requires Acyclic(up)
  {
    && Distinct(found)
    && id in found
    && (forall x :: x in found ==> Reaches(up, x, id))
    && (forall x :: x in found && x != id ==> x in up && up[x] in rows)
    && (forall x :: x in up && up[x] in rows ==> x in found)
  }

  lemma FoundMore(up: Links, id: int, rows: seq<int>, found: seq<int>, current: int, children: seq<int>)
    requires Acyclic(up) && Found(up, id, rows, found)
    requires Distinct(found + children)
    requires forall x :: x in children <==> x in up && up[x] == current
    requires forall x :: x in children ==> Reaches(up, x, id)
    ensures Found(up, id, rows + [current], found + children)
  {
    hide Reaches, Distinct;
  }

  /**
   The rows of the recursive walk down from `id`: one row per container of the
   subtree, although UNION ALL would keep duplicates.
   */
  method SubtreeWalk(cs: Containers, id: int) returns (rows: seq<int>)
    requires IsForest(cs) && ParentsSound(cs)
    ensures Distinct(rows)
    ensures forall x :: x in rows <==> WalkMeets(cs, x, id)
  {
    ghost var up := ParentLinks(cs);
    ghost var nodes := up.Keys + {id};
    var queue := [id];
    rows := [];
    while queue != []
      invariant PartOfSubtree(up, id, rows, queue)
      invariant |rows + queue| <= |nodes|
      decreases |nodes| - |rows|
    {
      var current := queue[0];
      var children := ChildrenOf(cs, current);
      QueueStep(up, id, rows, queue, children);
      rows, queue := rows + [current], queue[1..] + children;
      DistinctFit(rows + queue, nodes);
    }
    assert rows + queue == rows;
    forall x ensures x in rows <==> WalkMeets(cs, x, id) {
      MeetsIsReaches(cs, x, id);
      if Reaches(up, x, id) {
        ReachedIsListed(up, id, rows, x);
      }
    }
  }

  /** The rows of the walk from the top of the tree down to `id`. */
  method ChainRows(cs: Containers, id: int) returns (chain: seq<Container>)
    requires IsForest(cs) && ParentsSound(cs)
    ensures chain == if id in cs then PathRows(cs, id) else []
    ensures id in cs ==> chain != [] && chain[0].roomId == cs[id].roomId
  {
    if id !in cs {
      return [];
    }
    ghost var up := ParentLinks(cs);
    var current := id;
    chain := [cs[id]];
    while cs[current].parent.Some?
      invariant current in cs && cs[current].roomId == cs[id].roomId
      invariant |chain| > 0 && chain[0] == cs[current]
      invariant PathRows(cs, id) == PathRows(cs, current) + chain[1..]
      decreases Height(up, current)
    {
      var parent := cs[current].parent.value;
      assert PathRows(cs, current) == PathRows(cs, parent) + [cs[current]];
      assert [cs[current]] + chain[1..] == chain;
      current := parent;
      chain := [cs[current]] + chain;
    }
    assert PathRows(cs, current) == [cs[current]];
  }

  /** Distinct members of a finite set are no more than the set has. */
  lemma {:induction false} DistinctFit(xs: seq<int>, nodes: set<int>)
    requires Distinct(xs)
    requires forall x :: x in xs ==> x in nodes
    ensures |xs| <= |nodes|
    decreases |xs|
  {
    if xs != [] {
      var last := xs[|xs| - 1];
      var rest := xs[..|xs| - 1];
      assert last in nodes;
      forall x | x in rest ensures x in nodes - {last} {
        assert x in xs;
      }
      DistinctFit(rest, nodes - {last});
      assert |nodes - {last}| == |nodes| - 1;
    }
  }

  lemma JoinDistinct(xs: seq<int>, ys: seq<int>)
    requires Distinct(xs) && Distinct(ys)
    requires forall y :: y in ys ==> y !in xs
    ensures Distinct(xs + ys)
  {
    forall i, j | 0 <= i < j < |xs + ys| ensures (xs + ys)[i] != (xs + ys)[j] {
      if i < |xs| <= j {
        assert (xs + ys)[j] in ys;
      }
    }
  }

  lemma ChildrenAreNew(up: Links, id: int, rows: seq<int>, all: seq<int>, current: int, children: seq<int>)
    requires Acyclic(up)
    requires current in all && current !in rows && Reaches(up, current, id)
    requires forall x :: x in all && x != id ==> x in up && up[x] in rows
    requires forall x :: x in children ==> x in up && up[x] == current
    ensures forall x :: x in children ==> x !in all && Reaches(up, x, id) && x != id
  {
    forall x | x in children ensures x !in all && x != id && Reaches(up, x, id) {
      if x == id {
        ReachesHeight(up, current, id);
      }
    }
  }

  lemma QueueHeadIsNew(rows: seq<int>, queue: seq<int>)
    requires queue != [] && Distinct(rows + queue)
    ensures queue[0] !in rows && queue[0] in rows + queue
  {
    var all := rows + queue;
    assert all[|rows|] == queue[0];
    assert forall i :: 0 <= i < |rows| ==> all[i] == rows[i];
  }

  lemma RequeueSame(rows: seq<int>, queue: seq<int>, children: seq<int>)
    requires queue != []
    ensures (rows + [queue[0]]) + (queue[1..] + children) == (rows + queue) + children
  {
  }

  /** Taking one node off the queue and adding its children keeps what was found. */
  lemma QueueStep(up: Links, id: int, rows: seq<int>, queue: seq<int>, children: seq<int>)
    requires Acyclic(up)
    requires queue != [] && PartOfSubtree(up, id, rows, queue) && Distinct(children)
    requires forall x :: x in children <==> x in up && up[x] == queue[0]
    ensures PartOfSubtree(up, id, rows + [queue[0]], queue[1..] + children)
  {
    var current := queue[0];
    var all := rows + queue;
    QueueHeadIsNew(rows, queue);
    ChildrenAreNew(up, id, rows, all, current, children);
    JoinDistinct(all, children);
    FoundMore(up, id, rows, all, current, children);
    RequeueSame(rows, queue, children);
  }

  lemma {:induction false} ReachedIsListed(up: Links, id: int, rows: seq<int>, x: int)
    requires Acyclic(up) && Reaches(up, x, id)
    requires id in rows
    requires forall y :: y in up && up[y] in rows ==> y in rows
    ensures x in rows
    decreases Height(up, x)
  {
    if x != id {
      ReachedIsListed(up, id, rows, up[x]);
    }
  }

  /** The one statement that moves a container and every row of its subtree. */
  function UpdateRows(cs: Containers, subtree: seq<int>, id: int, roomId: int, parent: Option<int>): Containers {
    map x | x in cs ::
      if x in subtree then cs[x].(roomId := roomId, parent := if x == id then parent else cs[x].parent) else cs[x]
  }

  lemma UpdateRowsIsMove(cs: Containers, subtree: seq<int>, id: int, roomId: int, parent: Option<int>)
    requires forall x :: x in subtree <==> WalkMeets(cs, x, id)
    ensures UpdateRows(cs, subtree, id, roomId, parent) == MovedRows(cs, id, roomId, parent)
  {
  }

  class Repos {
    var rooms: Rooms
    var containers: Containers
    var items: Items
    var nextRoom: int
    var nextContainer: int
    var nextItem: int
    var log: seq<Event>

    function View(): State
      reads this
    {
      State(rooms, containers, items, nextRoom, nextContainer, nextItem, log)
    }

    constructor ()
      ensures View() == EMPTY
    {
      rooms, containers, items := map[], map[], map[];
      nextRoom, nextContainer, nextItem := 1, 1, 1;
      log := [];
    }

    method Rollback(before: State)
      modifies this
      ensures View() == before
    {
      rooms, containers, items := before.rooms, before.containers, before.items;
      nextRoom, nextContainer, nextItem := before.nextRoom, before.nextContainer, before.nextItem;
      log := before.log;
    }

    // ---- Rooms ------------------------------------------------------------------

    method CreateRoom(room: Room) returns (r: Outcome<Room>)
      modifies this
      ensures (View(), r) == StoreModel.CreateRoom(old(View()), room)
    {
      var normal := NormalRoom(room);
      if !ValidRoom(normal) {
        return Err(Validation);
      }
      var before := View();
      var row := normal.(id := nextRoom);
      rooms, nextRoom := rooms[row.id := row], nextRoom + 1;
      if !RoomNamesUnique(rooms) {
        Rollback(before);
        return Err(Conflict);
      }
      log := log + [RoomCreated(row)];
      return Ok(row);
    }

    method UpdateRoom(room: Room) returns (r: Outcome<Room>)
      modifies this
      ensures (View(), r) == StoreModel.UpdateRoom(old(View()), room)
    {
      var row := NormalRoom(room);
      if !ValidRoom(row) {
        return Err(Validation);
      }
      var before := View();
      if row.id !in rooms {
        return Err(NotFound);
      }
      rooms := rooms[row.id := row];
      if !RoomNamesUnique(rooms) {
        Rollback(before);
        return Err(Conflict);
      }
      log := log + [RoomUpdated(row)];
      return Ok(row);
    }

    method DeleteRoom(id: int) returns (r: Outcome<()>)
      modifies this
      ensures (View(), r) == StoreModel.DeleteRoom(old(View()), id)
    {
      if id !in rooms {
        return Err(NotFound);
      }
      if RoomHoldsSomething(View(), id) {
        return Err(Conflict);
      }
      var gone := rooms[id];
      rooms := rooms - {id};
      log := log + [RoomDeleted(gone)];
      return Ok(());
    }

    // ---- Containers ---------------------------------------------------------------

    method CreateContainer(container: Container) returns (r: Outcome<Container>)
      modifies this
      ensures (View(), r) == StoreModel.CreateContainer(old(View()), container)
    {
      var normal := NormalContainer(container);
      if !ValidContainer(normal) {
        return Err(Validation);
      }
      var before := View();
      if normal.roomId !in rooms {
        return Err(NotFound);
      }
      var problem := ParentProblem(containers, normal.parent, normal.roomId);
      if problem.Some? {
        return Err(problem.value);
      }
      var row := normal.(id := nextContainer);
      containers, nextContainer := containers[row.id := row], nextContainer + 1;
      if !ContainerNamesUnique(containers) {
        Rollback(before);
        return Err(Conflict);
      }
      log := log + [ContainerCreated(row)];
      return Ok(row);
    }

    method UpdateContainer(container: Container) returns (r: Outcome<Container>)
      requires Sound(View())
      modifies this
      ensures (View(), r) == StoreModel.UpdateContainer(old(View()), container)
    {
      var row := NormalContainer(container);
      if !ValidContainer(row) {
        return Err(Validation);
      }
      var before := View();
      if row.id !in containers {
        return Err(NotFound);
      }
      if containers[row.id].roomId != row.roomId {
        return Err(Validation);
      }
      var problem := ParentProblem(containers, row.parent, row.roomId);
      if problem.Some? {
        return Err(problem.value);
      }
      if row.parent.Some? {
        var ancestors := AncestorWalk(containers, row.parent.value);
        if row.id in ancestors {
          return Err(Cycle);
        }
      }
      containers := containers[row.id := row];
      if !ContainerNamesUnique(containers) {
        Rollback(before);
        return Err(Conflict);
      }
      log := log + [ContainerUpdated(row)];
      return Ok(row);
    }

    method MoveContainer(id: int, destination: Location) returns (r: Outcome<()>)
      requires Sound(View())
      modifies this
      ensures (View(), r) == StoreModel.MoveContainer(old(View()), id, destination)
    {
      hide RoomsSound, ContainerRowsSound, ItemsSound, ContainerNamesUnique, ParentsSound, IsForest, MovedRows, UpdateRows;
      if !ValidLocation(destination) {
        return Err(Validation);
      }
      var before := View();
      if id !in containers {
        return Err(NotFound);
      }
      var origin := Origin(containers[id]);
      var newRoom, newParent;
      if destination.kind.RoomKind? {
        if destination.id !in rooms {
          return Err(NotFound);
        }
        newRoom, newParent := destination.id, None;
      } else {
        if destination.id !in containers {
          return Err(NotFound);
        }
        var walk := AncestorWalk(containers, destination.id);
        if id in walk {
          return Err(Cycle);
        }
        newRoom, newParent := containers[destination.id].roomId, Some(destination.id);
      }
      var subtree := SubtreeWalk(containers, id);
      containers := UpdateRows(containers, subtree, id, newRoom, newParent);
      UpdateRowsIsMove(before.containers, subtree, id, newRoom, newParent);
      if !ContainerNamesUnique(containers) {
        Rollback(before);
        return Err(Conflict);
      }
      log := log + [ContainerMoved(id, origin, destination)];
      return Ok(());
    }

    method DeleteContainer(id: int) returns (r: Outcome<()>)
      modifies this
      ensures (View(), r) == StoreModel.DeleteContainer(old(View()), id)
    {
      if id !in containers {
        return Err(NotFound);
      }
      if ContainerHoldsSomething(View(), id) {
        return Err(Conflict);
      }
      var gone := containers[id];
      containers := containers - {id};
      log := log + [ContainerDeleted(gone)];
      return Ok(());
    }

    /** The room of a container and the containers that lead to it from the top. */
    method Path(id: int) returns (r: Outcome<(Room, seq<Container>)>)
      requires Sound(View())
      ensures r.Ok? <==> id in containers
      ensures r.Err? ==> r.error == NotFound
      ensures r.Ok? ==> containers[id].roomId in rooms && r.value.0 == rooms[containers[id].roomId]
      ensures r.Ok? ==> r.value.1 == PathRows(containers, id)
    {
      var chain := ChainRows(containers, id);
      if chain == [] {
        return Err(NotFound);
      }
      return Ok((rooms[chain[0].roomId], chain));
    }

    // ---- Items ------------------------------------------------------------------------

    method CreateItem(item: Item) returns (r: Outcome<Item>)
      modifies this
      ensures (View(), r) == StoreModel.CreateItem(old(View()), item)
    {
      hide ValidItem, NormalItem, StoredItem, ItemNamesUnique;
      var normal := NormalItem(item);
      if !ValidItem(normal) {
        return Err(Validation);
      }
      var before := View();
      if !LocationExists(before, normal.location) {
        return Err(NotFound);
      }
      var row := StoredItem(normal).(id := nextItem);
      items, nextItem := items[row.id := row], nextItem + 1;
      if !ItemNamesUnique(items) {
        Rollback(before);
        return Err(Conflict);
      }
      log := log + [ItemCreated(row)];
      return Ok(row);
    }

    method UpdateItem(item: Item) returns (r: Outcome<Item>)
      modifies this
      ensures (View(), r) == StoreModel.UpdateItem(old(View()), item)
    {
      hide ValidItem, NormalItem, StoredLabels, ItemNamesUnique;
      var normal := NormalItem(item);
      if !ValidItem(normal) {
        return Err(Validation);
      }
      var before := View();
      if !LocationExists(before, normal.location) {
        return Err(NotFound);
      }
      if normal.id !in items {
        return Err(NotFound);
      }
      var row := StoredItem(normal);
      items := items[row.id := row];
      if !ItemNamesUnique(items) {
        Rollback(before);
        return Err(Conflict);
      }
      log := log + [ItemUpdated(row)];
      return Ok(row);
    }

    method MoveItem(id: int, destination: Location) returns (r: Outcome<()>)
      modifies this
      ensures (View(), r) == StoreModel.MoveItem(old(View()), id, destination)
    {
      if !ValidLocation(destination) {
        return Err(Validation);
      }
      var before := View();
      if !LocationExists(before, destination) {
        return Err(NotFound);
      }
      if id !in items {
        return Err(NotFound);
      }
      var origin := items[id].location;
      items := items[id := items[id].(location := destination)];
      if !ItemNamesUnique(items) {
        Rollback(before);
        return Err(Conflict);
      }
      log := log + [ItemMoved(id, origin, destination)];
      return Ok(());
    }

    method DeleteItem(id: int) returns (r: Outcome<()>)
      modifies this
      ensures (View(), r) == StoreModel.DeleteItem(old(View()), id)
    {
      if id !in items {
        return Err(NotFound);
      }
      var gone := items[id];
      items := items - {id};
      log := log + [ItemDeleted(gone)];
      return Ok(());
    }

    // ---- Listings ------------------------------------------------------------------------

    method ListRooms() returns (rows: seq<Room>)
      requires Sound(View())
      ensures Lists(rows, rooms)
    {
      rows := ListRows(rooms);
    }

    method ListContainers() returns (rows: seq<Container>)
      requires Sound(View())
      ensures Lists(rows, containers)
    {
      rows := ListRows(containers);
    }

    method ListItems() returns (rows: seq<Item>)
      requires Sound(View())
      ensures Lists(rows, items)
    {
      rows := ListRows(items);
    }
  }
}
