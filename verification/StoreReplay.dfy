/** The event log alone rebuilds the tables. */
module StoreReplay {
  import opened Inventory
  import opened StoreModel
  import opened StoreInvariant
  import opened StoreTree

  datatype Tables = Tables(rooms: Rooms, containers: Containers, items: Items)

  function TablesOf(s: State): Tables {
    Tables(s.rooms, s.containers, s.items)
  }

  /** A container re-hung first; then whatever hangs from it now changes room. */
  function ReplayMove(cs: Containers, id: int, destination: Location): Containers
    requires id in cs && (destination.kind.ContainerKind? ==> destination.id in cs)
  {
    var roomId := if destination.kind.ContainerKind? then cs[destination.id].roomId else destination.id;
    var rehung := cs[id := cs[id].(parent := DestinationParent(destination))];
    map x | x in rehung :: if WalkMeets(rehung, x, id) then rehung[x].(roomId := roomId) else rehung[x]
  }

  /** What one event says happened, read without the state it came from. */
  function Apply(t: Tables, event: Event): Tables {
    match event
    case RoomCreated(room) => t.(rooms := t.rooms[room.id := room])
    case RoomUpdated(room) => t.(rooms := t.rooms[room.id := room])
    case RoomDeleted(room) => t.(rooms := t.rooms - {room.id})
    case ContainerCreated(c) => t.(containers := t.containers[c.id := c])
    case ContainerUpdated(c) => t.(containers := t.containers[c.id := c])
    case ContainerDeleted(c) => t.(containers := t.containers - {c.id})
    case ContainerMoved(id, _, destination) =>
      if id in t.containers && (destination.kind.ContainerKind? ==> destination.id in t.containers)
      then t.(containers := ReplayMove(t.containers, id, destination)) else t
    case ItemCreated(item) => t.(items := t.items[item.id := item])
    case ItemUpdated(item) => t.(items := t.items[item.id := item])
    case ItemDeleted(item) => t.(items := t.items - {item.id})
    case ItemMoved(id, _, destination) =>
      if id in t.items then t.(items := t.items[id := t.items[id].(location := destination)]) else t
  }

  function Replay(log: seq<Event>): Tables {
    if log == [] then Tables(map[], map[], map[]) else Apply(Replay(log[..|log| - 1]), log[|log| - 1])
  }

  lemma ReplayMoveIsMove(cs: Containers, id: int, roomId: int, destination: Location)
    requires IsForest(cs) && ParentsSound(cs) && id in cs
    requires destination.kind.ContainerKind? ==>
      destination.id in cs && cs[destination.id].roomId == roomId && !WalkMeets(cs, destination.id, id)
    requires destination.kind.RoomKind? ==> destination.id == roomId
    requires !destination.kind.OtherKind?
    ensures ReplayMove(cs, id, destination) == MovedRows(cs, id, roomId, DestinationParent(destination))
  {
    var parent := DestinationParent(destination);
    var row := cs[id].(parent := parent);
    var rehung := cs[id := row];
    var next := MovedRows(cs, id, roomId, parent);
    LinksAfterMove(cs, id, roomId, parent);
    forall x ensures x in ParentLinks(rehung) <==> x in ParentLinks(next) {
    }
    assert ParentLinks(rehung) == ParentLinks(next);
    forall x | x in cs ensures ReplayMove(cs, id, destination)[x] == next[x] {
      SubtreeSurvivesMove(cs, id, roomId, parent, x);
      MeetsIsReaches(cs, id, id);
    }
  }

  lemma LogStep(log: seq<Event>, event: Event)
    ensures Replay(log + [event]) == Apply(Replay(log), event)
  {
    assert (log + [event])[..|log|] == log;
  }

  /** `t` follows `s` in the log by one event, and the event says what changed. */
  predicate Recorded(s: State, t: State) {
    && |t.log| == |s.log| + 1 && t.log[..|s.log|] == s.log
    && TablesOf(t) == Apply(TablesOf(s), t.log[|s.log|])
  }

  lemma PlaceOfMove(s: State, destination: Location)
    requires LocationExists(s, destination)
    ensures destination.kind.ContainerKind? ==>
      destination.id in s.containers && s.containers[destination.id].roomId == DestinationRoom(s, destination)
    ensures destination.kind.RoomKind? ==> destination.id == DestinationRoom(s, destination)
    ensures !destination.kind.OtherKind?
  {
  }

  lemma MoveRecorded(s: State, id: int, destination: Location)
    requires Sound(s) && MoveContainer(s, id, destination).1.Ok?
    ensures Recorded(s, MoveContainer(s, id, destination).0)
  {
    hide MoveContainer, ReplayMove, MovedRows, LocationExists, WalkMeets, RoomsSound, ItemsSound, ContainerRowsSound, IsForest, ParentsSound;
    MoveOutcome(s, id, destination);
    PlaceOfMove(s, destination);
    ReplayMoveIsMove(s.containers, id, DestinationRoom(s, destination), destination);
  }

  lemma CreateRoomRecorded(s: State, room: Room)
    requires CreateRoom(s, room).1.Ok?
    ensures Recorded(s, CreateRoom(s, room).0)
  {
  }

  lemma UpdateRoomRecorded(s: State, room: Room)
    requires UpdateRoom(s, room).1.Ok?
    ensures Recorded(s, UpdateRoom(s, room).0)
  {
  }

  lemma DeleteRoomRecorded(s: State, id: int)
    requires DeleteRoom(s, id).1.Ok? && s.rooms[id].id == id
    ensures Recorded(s, DeleteRoom(s, id).0)
  {
  }

  lemma CreateContainerRecorded(s: State, container: Container)
    requires CreateContainer(s, container).1.Ok?
    ensures Recorded(s, CreateContainer(s, container).0)
  {
  }

  lemma UpdateContainerRecorded(s: State, container: Container)
    requires UpdateContainer(s, container).1.Ok?
    ensures Recorded(s, UpdateContainer(s, container).0)
  {
  }

  lemma DeleteContainerRecorded(s: State, id: int)
    requires DeleteContainer(s, id).1.Ok? && s.containers[id].id == id
    ensures Recorded(s, DeleteContainer(s, id).0)
  {
  }

  lemma CreateItemRecorded(s: State, item: Item)
    requires CreateItem(s, item).1.Ok?
    ensures Recorded(s, CreateItem(s, item).0)
  {
    hide ValidItem, ItemNamesUnique, StoredItem, NormalItem, LocationExists;
  }

  lemma UpdateItemRecorded(s: State, item: Item)
    requires UpdateItem(s, item).1.Ok?
    ensures Recorded(s, UpdateItem(s, item).0)
  {
    hide ValidItem, ItemNamesUnique, StoredItem, NormalItem, LocationExists;
  }

  lemma DeleteItemRecorded(s: State, id: int)
    requires DeleteItem(s, id).1.Ok? && s.items[id].id == id
    ensures Recorded(s, DeleteItem(s, id).0)
  {
  }

  lemma MoveItemRecorded(s: State, id: int, destination: Location)
    requires MoveItem(s, id, destination).1.Ok?
    ensures Recorded(s, MoveItem(s, id, destination).0)
  {
  }

  /** A call either changes nothing, or appends one event that says what it did. */
  lemma StepRecorded(s: State, op: Op)
    requires Sound(s)
    ensures var (t, refusal) := Step(s, op); if refusal.Some? then t == s else Recorded(s, t)
  {
    if Step(s, op).1.Some? {
      RefusalChangesNothing(s, op);
    } else {
      match op
      case OpCreateRoom(room) => CreateRoomRecorded(s, room);
      case OpUpdateRoom(room) => UpdateRoomRecorded(s, room);
      case OpDeleteRoom(id) => DeleteRoomRecorded(s, id);
      case OpCreateContainer(c) => CreateContainerRecorded(s, c);
      case OpUpdateContainer(c) => UpdateContainerRecorded(s, c);
      case OpMoveContainer(id, destination) => MoveRecorded(s, id, destination);
      case OpDeleteContainer(id) => DeleteContainerRecorded(s, id);
      case OpCreateItem(item) => CreateItemRecorded(s, item);
      case OpUpdateItem(item) => UpdateItemRecorded(s, item);
      case OpMoveItem(id, destination) => MoveItemRecorded(s, id, destination);
      case OpDeleteItem(id) => DeleteItemRecorded(s, id);
    }
  }

  lemma RecordedReplays(s: State, t: State)
    requires TablesOf(s) == Replay(s.log) && Recorded(s, t)
    ensures TablesOf(t) == Replay(t.log)
  {
    var event := t.log[|s.log|];
    assert t.log == s.log + [event];
    LogStep(s.log, event);
  }

  lemma {:induction false} RunReplays(s: State, ops: seq<Op>)
    requires Sound(s) && TablesOf(s) == Replay(s.log)
    ensures TablesOf(Run(s, ops)) == Replay(Run(s, ops).log)
    decreases |ops|
  {
    if ops != [] {
      var t := Step(s, ops[0]).0;
      StepSound(s, ops[0]);
      StepRecorded(s, ops[0]);
      if t != s {
        RecordedReplays(s, t);
      }
      RunReplays(t, ops[1..]);
    }
  }

  /** In every reachable state the log, folded from nothing, gives the tables. */
  lemma ReplayRebuilds(s: State)
    requires Reachable(s)
    ensures Replay(s.log) == TablesOf(s)
  {
    var ops :| Run(EMPTY, ops) == s;
    EmptySound();
    RunReplays(EMPTY, ops);
  }
}
