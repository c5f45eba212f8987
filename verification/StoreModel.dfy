/**
 The inventory store as a state machine on values. Each mutation is one
 transaction: it answers with the state it leaves and with what it returned. A
 refused mutation leaves the state it found.
 */
module StoreModel {
  import opened Text
  import opened Inventory
  import opened Forest

  /** One row of the event log, with the payload a replay is given. */
  datatype Event =
    | RoomCreated(room: Room)
    | RoomUpdated(room: Room)
    | RoomDeleted(room: Room)
    | ContainerCreated(container: Container)
    | ContainerUpdated(container: Container)
    | ContainerDeleted(container: Container)
    | ContainerMoved(containerId: int, origin: Location, destination: Location)
    | ItemCreated(item: Item)
    | ItemUpdated(item: Item)
    | ItemDeleted(item: Item)
    | ItemMoved(itemId: int, origin: Location, destination: Location)

  type Rooms = map<int, Room>
  type Containers = map<int, Container>
  type Items = map<int, Item>

  /** The tables, the id each of them hands out next, and the event log. */
  datatype State = State(
    rooms: Rooms, containers: Containers, items: Items,
    nextRoom: int, nextContainer: int, nextItem: int,
    log: seq<Event>)

  const EMPTY := State(map[], map[], map[], 1, 1, 1, [])

  /** Every container is stored under its own id. */
  predicate RowsKeyed(cs: Containers) {
    forall id :: id in cs ==> cs[id].id == id
  }

  /** The parent relation of the containers table. */
  function ParentLinks(cs: Containers): Links {
    map id | id in cs && cs[id].parent.Some? && cs[id].parent.value in cs :: cs[id].parent.value
  }

  /** The upward walk from `start` meets `id`. */
  predicate WalkMeets(cs: Containers, start: int, id: int) {
    id in WalkUp(ParentLinks(cs), start, {})
  }

  // ---- The unique indexes ---------------------------------------------------

  predicate RoomNamesUnique(rooms: Rooms) {
    forall a, b :: a in rooms && b in rooms && ScopeKey(rooms[a].name) == ScopeKey(rooms[b].name) ==> a == b
  }

  predicate SameRoomAndName(a: Container, b: Container) {
    a.roomId == b.roomId && ScopeKey(a.name) == ScopeKey(b.name)
  }

  predicate ContainerNamesUnique(cs: Containers) {
    forall a, b :: a in cs && b in cs && SameRoomAndName(cs[a], cs[b]) ==> a == b
  }

  /** Two items at one place whose names differ at most in case. */
  predicate SameSlot(a: Item, b: Item) {
    a.location == b.location && ScopeKey(a.name) == ScopeKey(b.name)
  }

  predicate ItemNamesUnique(items: Items) {
    forall a, b :: a in items && b in items && SameSlot(items[a], items[b]) ==> a == b
  }

  // ---- Reference checks -----------------------------------------------------

  predicate LocationExists(s: State, location: Location) {
    match location.kind
    case RoomKind => location.id in s.rooms
    case ContainerKind => location.id in s.containers
    case OtherKind(_) => false
  }

  /** What refuses a parent: it is missing, or lives in another room. */
  function ParentProblem(cs: Containers, parent: Option<int>, roomId: int): Option<Error> {
    if parent.None? then None
    else if parent.value !in cs then Some(NotFound)
    else if cs[parent.value].roomId != roomId then Some(Validation)
    else None
  }

  // ---- Rooms ------------------------------------------------------------------

  function CreateRoom(s: State, room: Room): (State, Outcome<Room>) {
    var row := NormalRoom(room).(id := s.nextRoom);
    var table := s.rooms[row.id := row];
    if !ValidRoom(NormalRoom(room)) then (s, Err(Validation))
    else if !RoomNamesUnique(table) then (s, Err(Conflict))
    else (s.(rooms := table, nextRoom := s.nextRoom + 1, log := s.log + [RoomCreated(row)]), Ok(row))
  }

  function UpdateRoom(s: State, room: Room): (State, Outcome<Room>) {
    var row := NormalRoom(room);
    var table := s.rooms[row.id := row];
    if !ValidRoom(row) then (s, Err(Validation))
    else if row.id !in s.rooms then (s, Err(NotFound))
    else if !RoomNamesUnique(table) then (s, Err(Conflict))
    else (s.(rooms := table, log := s.log + [RoomUpdated(row)]), Ok(row))
  }

  predicate RoomHoldsSomething(s: State, id: int) {
    || (exists c :: c in s.containers && s.containers[c].roomId == id)
    || (exists i :: i in s.items && s.items[i].location == InRoom(id))
  }

  function DeleteRoom(s: State, id: int): (State, Outcome<()>) {
    if id !in s.rooms then (s, Err(NotFound))
    else if RoomHoldsSomething(s, id) then (s, Err(Conflict))
    else (s.(rooms := s.rooms - {id}, log := s.log + [RoomDeleted(s.rooms[id])]), Ok(()))
  }

  // ---- Containers -------------------------------------------------------------

  function CreateContainer(s: State, container: Container): (State, Outcome<Container>) {
    var normal := NormalContainer(container);
    var row := normal.(id := s.nextContainer);
    var table := s.containers[row.id := row];
    if !ValidContainer(normal) then (s, Err(Validation))
    else if normal.roomId !in s.rooms then (s, Err(NotFound))
    else if ParentProblem(s.containers, normal.parent, normal.roomId).Some? then
      (s, Err(ParentProblem(s.containers, normal.parent, normal.roomId).value))
    else if !ContainerNamesUnique(table) then (s, Err(Conflict))
    else (s.(containers := table, nextContainer := s.nextContainer + 1, log := s.log + [ContainerCreated(row)]), Ok(row))
  }

  function UpdateContainer(s: State, container: Container): (State, Outcome<Container>) {
    var row := NormalContainer(container);
    var table := s.containers[row.id := row];
    if !ValidContainer(row) then (s, Err(Validation))
    else if row.id !in s.containers then (s, Err(NotFound))
    else if s.containers[row.id].roomId != row.roomId then (s, Err(Validation))
    else if ParentProblem(s.containers, row.parent, row.roomId).Some? then
      (s, Err(ParentProblem(s.containers, row.parent, row.roomId).value))
    else if row.parent.Some? && WalkMeets(s.containers, row.parent.value, row.id) then (s, Err(Cycle))
    else if !ContainerNamesUnique(table) then (s, Err(Conflict))
    else (s.(containers := table, log := s.log + [ContainerUpdated(row)]), Ok(row))
  }

  /** Where a container points at: its parent, or its room at the top. */
  function Origin(container: Container): Location {
    if container.parent.Some? then InContainer(container.parent.value) else InRoom(container.roomId)
  }

  /** The moved row gets a new parent; it and everything below it a new room. */
  function MovedRow(cs: Containers, id: int, roomId: int, parent: Option<int>, x: int): Container
    requires x in cs
  {
    if !WalkMeets(cs, x, id) then cs[x]
    else if x == id then cs[x].(roomId := roomId, parent := parent)
    else cs[x].(roomId := roomId)
  }

  function MovedRows(cs: Containers, id: int, roomId: int, parent: Option<int>): Containers {
    map x | x in cs :: MovedRow(cs, id, roomId, parent, x)
  }

  /** The room a destination lies in. */
  function DestinationRoom(s: State, destination: Location): int
    requires LocationExists(s, destination)
  {
    if destination.kind.RoomKind? then destination.id else s.containers[destination.id].roomId
  }

  function DestinationParent(destination: Location): Option<int> {
    if destination.kind.RoomKind? then None else Some(destination.id)
  }

  function MoveContainer(s: State, id: int, destination: Location): (State, Outcome<()>) {
    if !ValidLocation(destination) then (s, Err(Validation))
    else if id !in s.containers then (s, Err(NotFound))
    else if !LocationExists(s, destination) then (s, Err(NotFound))
    else if destination.kind.ContainerKind? && WalkMeets(s.containers, destination.id, id) then (s, Err(Cycle))
    else
      var table := MovedRows(s.containers, id, DestinationRoom(s, destination), DestinationParent(destination));
      if !ContainerNamesUnique(table) then (s, Err(Conflict))
      else
        var event := ContainerMoved(id, Origin(s.containers[id]), destination);
        (s.(containers := table, log := s.log + [event]), Ok(()))
  }

  predicate ContainerHoldsSomething(s: State, id: int) {
    || (exists c :: c in s.containers && s.containers[c].parent == Some(id))
    || (exists i :: i in s.items && s.items[i].location == InContainer(id))
  }

  function DeleteContainer(s: State, id: int): (State, Outcome<()>) {
    if id !in s.containers then (s, Err(NotFound))
    else if ContainerHoldsSomething(s, id) then (s, Err(Conflict))
    else (s.(containers := s.containers - {id}, log := s.log + [ContainerDeleted(s.containers[id])]), Ok(()))
  }

  // ---- Items --------------------------------------------------------------------

  function CreateItem(s: State, item: Item): (State, Outcome<Item>) {
    var normal := NormalItem(item);
    var row := StoredItem(normal).(id := s.nextItem);
    var table := s.items[row.id := row];
    if !ValidItem(normal) then (s, Err(Validation))
    else if !LocationExists(s, normal.location) then (s, Err(NotFound))
    else if !ItemNamesUnique(table) then (s, Err(Conflict))
    else (s.(items := table, nextItem := s.nextItem + 1, log := s.log + [ItemCreated(row)]), Ok(row))
  }

  function UpdateItem(s: State, item: Item): (State, Outcome<Item>) {
    var normal := NormalItem(item);
    var row := StoredItem(normal);
    var table := s.items[row.id := row];
    if !ValidItem(normal) then (s, Err(Validation))
    else if !LocationExists(s, normal.location) then (s, Err(NotFound))
    else if row.id !in s.items then (s, Err(NotFound))
    else if !ItemNamesUnique(table) then (s, Err(Conflict))
    else (s.(items := table, log := s.log + [ItemUpdated(row)]), Ok(row))
  }

  function MoveItem(s: State, id: int, destination: Location): (State, Outcome<()>) {
    if !ValidLocation(destination) then (s, Err(Validation))
    else if !LocationExists(s, destination) then (s, Err(NotFound))
    else if id !in s.items then (s, Err(NotFound))
    else
      var table := s.items[id := s.items[id].(location := destination)];
      if !ItemNamesUnique(table) then (s, Err(Conflict))
      else (s.(items := table, log := s.log + [ItemMoved(id, s.items[id].location, destination)]), Ok(()))
  }

  function DeleteItem(s: State, id: int): (State, Outcome<()>) {
    if id !in s.items then (s, Err(NotFound))
    else (s.(items := s.items - {id}, log := s.log + [ItemDeleted(s.items[id])]), Ok(()))
  }

  // ---- Runs -----------------------------------------------------------------------

  datatype Op =
    | OpCreateRoom(room: Room)
    | OpUpdateRoom(room: Room)
    | OpDeleteRoom(id: int)
    | OpCreateContainer(container: Container)
    | OpUpdateContainer(container: Container)
    | OpMoveContainer(id: int, destination: Location)
    | OpDeleteContainer(id: int)
    | OpCreateItem(item: Item)
    | OpUpdateItem(item: Item)
    | OpMoveItem(id: int, destination: Location)
    | OpDeleteItem(id: int)

  function Refusal<T>(outcome: Outcome<T>): Option<Error> {
    if outcome.Ok? then None else Some(outcome.error)
  }

  /** One call, with the error it was refused with. */
  function Step(s: State, op: Op): (State, Option<Error>) {
    match op
    case OpCreateRoom(room) => var (t, r) := CreateRoom(s, room); (t, Refusal(r))
    case OpUpdateRoom(room) => var (t, r) := UpdateRoom(s, room); (t, Refusal(r))
    case OpDeleteRoom(id) => var (t, r) := DeleteRoom(s, id); (t, Refusal(r))
    case OpCreateContainer(c) => var (t, r) := CreateContainer(s, c); (t, Refusal(r))
    case OpUpdateContainer(c) => var (t, r) := UpdateContainer(s, c); (t, Refusal(r))
    case OpMoveContainer(id, destination) => var (t, r) := MoveContainer(s, id, destination); (t, Refusal(r))
    case OpDeleteContainer(id) => var (t, r) := DeleteContainer(s, id); (t, Refusal(r))
    case OpCreateItem(item) => var (t, r) := CreateItem(s, item); (t, Refusal(r))
    case OpUpdateItem(item) => var (t, r) := UpdateItem(s, item); (t, Refusal(r))
    case OpMoveItem(id, destination) => var (t, r) := MoveItem(s, id, destination); (t, Refusal(r))
    case OpDeleteItem(id) => var (t, r) := DeleteItem(s, id); (t, Refusal(r))
  }

  /** The state after a sequence of calls, refused ones included. */
  function Run(s: State, ops: seq<Op>): State
    decreases |ops|
  {
    if ops == [] then s else Run(Step(s, ops[0]).0, ops[1..])
  }
}
