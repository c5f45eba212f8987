/** Two small stores, and the runs that reach them. */
module StoreExamples {
  import opened Text
  import opened Inventory
  import opened StoreModel
  import opened StoreInvariant

  /** A name that is kept as it is. */
  predicate Storable(name: string) {
    Trim(name) == name && 0 < |name| <= MAX_NAME
  }

  lemma RoomAdded(s: State, name: string)
    requires Storable(name) && s.nextRoom !in s.rooms && RoomNamesUnique(s.rooms)
    requires forall id :: id in s.rooms ==> ScopeKey(s.rooms[id].name) != ScopeKey(name)
    ensures CreateRoom(s, Room(0, name, "")).0 == s.(
      rooms := s.rooms[s.nextRoom := Room(s.nextRoom, name, "")], nextRoom := s.nextRoom + 1,
      log := s.log + [RoomCreated(Room(s.nextRoom, name, ""))])
  {
    TrimIdentity("");
    assert RoomNamesUnique(s.rooms[s.nextRoom := Room(s.nextRoom, name, "")]);
  }

  lemma ContainerAdded(s: State, room: int, parent: Option<int>, name: string)
    requires Storable(name) && s.nextContainer !in s.containers && ContainerNamesUnique(s.containers)
    requires room > 0 && room in s.rooms && ParentProblem(s.containers, parent, room).None?
    requires parent.Some? ==> parent.value > 0
    requires forall id :: id in s.containers ==> ScopeKey(s.containers[id].name) != ScopeKey(name)
    ensures var row := Container(s.nextContainer, room, parent, name, "");
      CreateContainer(s, Container(0, room, parent, name, "")).0 == s.(
        containers := s.containers[row.id := row], nextContainer := s.nextContainer + 1,
        log := s.log + [ContainerCreated(row)])
  {
    TrimIdentity("");
    assert ContainerNamesUnique(s.containers[s.nextContainer := Container(s.nextContainer, room, parent, name, "")]);
  }

  lemma ThreeSteps(s: State, a: Op, b: Op, c: Op)
    ensures Run(s, [a, b, c]) == Step(Step(Step(s, a).0, b).0, c).0
  {
    hide Step;
    assert [a, b, c][1..] == [b, c] && [b, c][1..] == [c] && [c][1..] == [];
    assert Run(Step(s, a).0, [b, c]) == Run(Step(Step(s, a).0, b).0, [c]);
  }

  lemma LettersStorable()
    ensures Storable("A") && Storable("B") && Storable("G")
    ensures ScopeKey("A") != ScopeKey("B")
  {
    TrimIdentity("A");
    TrimIdentity("B");
    TrimIdentity("G");
    assert ScopeKey("A")[0] == 'a' && ScopeKey("B")[0] == 'b';
  }

  /** A run that stores a container "B" in a container "A", in a room "G". */
  lemma NestedStore() returns (s: State)
    ensures Reachable(s) && Sound(s)
    ensures s.rooms == map[1 := Room(1, "G", "")]
    ensures s.containers == map[1 := Container(1, 1, None, "A", ""), 2 := Container(2, 1, Some(1), "B", "")]
  {
    hide CreateRoom, CreateContainer, Run, Sound, Storable, ScopeKey;
    var room, outer, inner := Room(0, "G", ""), Container(0, 1, None, "A", ""), Container(0, 1, Some(1), "B", "");
    LettersStorable();
    RoomAdded(EMPTY, "G");
    var s1 := CreateRoom(EMPTY, room).0;
    ContainerAdded(s1, 1, None, "A");
    var s2 := CreateContainer(s1, outer).0;
    ContainerAdded(s2, 1, Some(1), "B");
    s := CreateContainer(s2, inner).0;
    ThreeSteps(EMPTY, OpCreateRoom(room), OpCreateContainer(outer), OpCreateContainer(inner));
    assert Run(EMPTY, [OpCreateRoom(room), OpCreateContainer(outer), OpCreateContainer(inner)]) == s;
    ReachableSound(s);
  }

  /** A room of some name beside a container "B" in a room "A". */
  predicate Beside(s: State, name: string) {
    && s.rooms == map[1 := Room(1, name, ""), 2 := Room(2, "A", "")]
    && s.containers == map[1 := Container(1, 2, None, "B", "")]
  }

  /** A run that stores them. */
  lemma StoredBeside(name: string) returns (s: State)
    requires Storable(name) && ScopeKey(name) != ScopeKey("A")
    ensures Reachable(s) && Sound(s) && Beside(s, name)
  {
    hide CreateRoom, CreateContainer, Run, Sound, Storable, ScopeKey;
    var first, second, inner := Room(0, name, ""), Room(0, "A", ""), Container(0, 2, None, "B", "");
    LettersStorable();
    RoomAdded(EMPTY, name);
    var s1 := CreateRoom(EMPTY, first).0;
    RoomAdded(s1, "A");
    var s2 := CreateRoom(s1, second).0;
    ContainerAdded(s2, 2, None, "B");
    s := CreateContainer(s2, inner).0;
    ThreeSteps(EMPTY, OpCreateRoom(first), OpCreateRoom(second), OpCreateContainer(inner));
    assert Run(EMPTY, [OpCreateRoom(first), OpCreateRoom(second), OpCreateContainer(inner)]) == s;
    ReachableSound(s);
  }
}
