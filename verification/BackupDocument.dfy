/**
 The export document and the order its containers are applied in. The document
 names things instead of carrying ids.
 */
module BackupDocument {
  import opened Text
  import opened Sorting
  import opened Inventory
  import opened Forest

  datatype DocRoom = DocRoom(name: string, description: string)

  /** `parent` is empty for a container that sits directly in its room. */
  datatype DocContainer = DocContainer(room: string, parent: string, name: string, description: string)

  datatype DocLocation = DocLocation(kind: Kind, room: string, container: string)

  datatype DocItem = DocItem(
    name: string, description: string, quantity: int, notes: string,
    tags: seq<string>, aliases: seq<string>, location: DocLocation)

  datatype Document = Document(
    format: string, version: int,
    rooms: seq<DocRoom>, containers: seq<DocContainer>, items: seq<DocItem>)

  const FORMAT := "homey.export"
  const VERSION := 1

  /** A container is identified by its room and its name, folded. */
  datatype ContainerKey = ContainerKey(room: string, name: string)

  function EntryKey(entry: DocContainer): ContainerKey {
    ContainerKey(ScopeKey(entry.room), ScopeKey(entry.name))
  }

  function ParentKey(entry: DocContainer): ContainerKey {
    ContainerKey(ScopeKey(entry.room), ScopeKey(entry.parent))
  }

  predicate KeysDistinct(entries: seq<DocContainer>) {
    forall i, j :: 0 <= i < |entries| && 0 <= j < |entries| && EntryKey(entries[i]) == EntryKey(entries[j]) ==> i == j
  }

  /** The position of the entry each entry hangs from, where that is an entry. */
  predicate HangsFrom(entries: seq<DocContainer>, i: int, j: int) {
    && 0 <= i < |entries| && 0 <= j < |entries|
    && entries[i].parent != "" && EntryKey(entries[j]) == ParentKey(entries[i])
  }

  ghost predicate LinksEntries(entries: seq<DocContainer>, up: Links) {
    && (forall i :: i in up ==> HangsFrom(entries, i, up[i]))
    && (forall i, j :: HangsFrom(entries, i, j) ==> i in up && up[i] == j)
  }

  lemma EntryLinksExist(entries: seq<DocContainer>)
    requires KeysDistinct(entries)
    ensures exists up :: LinksEntries(entries, up)
  {
    var up := map i, j | 0 <= i < |entries| && 0 <= j < |entries| && HangsFrom(entries, i, j) :: i := j;
    assert LinksEntries(entries, up);
  }

  ghost function EntryLinks(entries: seq<DocContainer>): (up: Links)
    requires KeysDistinct(entries)
    ensures LinksEntries(entries, up)
  {
    EntryLinksExist(entries);
    var up :| LinksEntries(entries, up);
    up
  }

  /** How many entries lie above entry `i`. */
  ghost function Depth(entries: seq<DocContainer>, i: int): int
    requires KeysDistinct(entries)
  {
    |WalkUp(EntryLinks(entries), i, {})| - 1
  }

  datatype Placed = Placed(entry: DocContainer, depth: int)

  /** Rooms together, parents before children, then by name. */
  function PlacedOrder(placed: Placed): seq<Part> {
    [Word(ScopeKey(placed.entry.room)), Number(placed.depth), Word(ScopeKey(placed.entry.name)), Word(placed.entry.name)]
  }

  ghost function Place(entries: seq<DocContainer>): (placed: seq<Placed>)
    requires KeysDistinct(entries)
    ensures |placed| == |entries|
    ensures forall i :: 0 <= i < |entries| ==> placed[i] == Placed(entries[i], Depth(entries, i))
  {
    seq(|entries|, i requires 0 <= i < |entries| => Placed(entries[i], Depth(entries, i)))
  }

  function EntriesOf(placed: seq<Placed>): (entries: seq<DocContainer>)
    ensures |entries| == |placed|
    ensures forall i :: 0 <= i < |placed| ==> entries[i] == placed[i].entry
  {
    seq(|placed|, i requires 0 <= i < |placed| => placed[i].entry)
  }

  ghost predicate AnyLoop(entries: seq<DocContainer>)
    requires KeysDistinct(entries)
  {
    exists i :: 0 <= i < |entries| && Loops(EntryLinks(entries), i)
  }

  ghost function Ordered(entries: seq<DocContainer>): Outcome<seq<DocContainer>> {
    if !KeysDistinct(entries) then Err(Validation)
    else if AnyLoop(entries) then Err(Validation)
    else Ok(EntriesOf(StableSort(Place(entries), PlacedOrder)))
  }

  // ---- The loops of the source -----------------------------------------------------

  method IndexPositions(entries: seq<DocContainer>) returns (positions: map<ContainerKey, int>, duplicate: bool)
    ensures duplicate <==> !KeysDistinct(entries)
    ensures !duplicate ==> forall i :: 0 <= i < |entries| ==> EntryKey(entries[i]) in positions
    ensures !duplicate ==> forall key :: key in positions ==>
      0 <= positions[key] < |entries| && EntryKey(entries[positions[key]]) == key
  {
    positions, duplicate := map[], false;
    for index := 0 to |entries|
      invariant forall i :: 0 <= i < index ==> EntryKey(entries[i]) in positions && positions[EntryKey(entries[i])] == i
      invariant forall key :: key in positions ==> 0 <= positions[key] < index && EntryKey(entries[positions[key]]) == key
    {
      var key := EntryKey(entries[index]);
      if key in positions {
        return positions, true;
      }
      positions := positions[key := index];
    }
  }

  /** Climbs from one entry, counting; gives up when it comes round again. */
  method ScanDepth(entries: seq<DocContainer>, positions: map<ContainerKey, int>, index: int)
    returns (depth: int, cycle: bool)
    requires KeysDistinct(entries) && 0 <= index < |entries|
    requires forall i :: 0 <= i < |entries| ==> EntryKey(entries[i]) in positions
    requires forall key :: key in positions ==>
      0 <= positions[key] < |entries| && EntryKey(entries[positions[key]]) == key
    ensures cycle <==> Loops(EntryLinks(entries), index)
    ensures !cycle ==> depth == Depth(entries, index)
  {
    ghost var up := EntryLinks(entries);
    ghost var walk: seq<int> := [];
    ghost var nodes := positions.Values;
    var ancestors: set<int> := {};
    var current := index;
    depth := 0;
    while true
      invariant 0 <= current < |entries|
      invariant Scanned(up, index, walk, current, ancestors)
      invariant depth == |walk|
      decreases |nodes - ancestors|
    {
      if current in ancestors {
        ScanCloses(up, index, walk, current, ancestors);
        return depth, true;
      }
      assert positions[EntryKey(entries[current])] == current;
      SubsetSmaller(nodes - (ancestors + {current}), nodes - ancestors);
      ghost var met := ancestors;
      ancestors := ancestors + {current};
      if entries[current].parent == "" {
        ScanEnds(up, index, walk, current, met);
        return depth, false;
      }
      var parent := ParentKey(entries[current]);
      if parent !in positions {
        ScanEnds(up, index, walk, current, met);
        return depth, false;
      }
      assert HangsFrom(entries, current, positions[parent]);
      ScanAdvances(up, index, walk, current, met);
      walk := walk + [current];
      current := positions[parent];
      depth := depth + 1;
    }
  }

  /** The scan so far: the walk it follows, and what it has met. */
  ghost predicate Scanned(up: Links, index: int, walk: seq<int>, current: int, ancestors: set<int>) {
    && WalkUp(up, index, {}) == walk + WalkUp(up, current, ancestors)
    && (walk == [] ==> current == index && ancestors == {})
    && (walk != [] ==> walk[|walk| - 1] in up)
  }

  lemma WalkOneMore(up: Links, k: int, seen: set<int>)
    requires k !in seen && k in up
    ensures WalkUp(up, k, seen) == [k] + WalkUp(up, up[k], seen + {k})
  {
  }

  lemma ScanAdvances(up: Links, index: int, walk: seq<int>, current: int, ancestors: set<int>)
    requires Scanned(up, index, walk, current, ancestors) && current !in ancestors && current in up
    ensures Scanned(up, index, walk + [current], up[current], ancestors + {current})
  {
    hide WalkUp;
    WalkOneMore(up, current, ancestors);
    Regroup(walk, [current], WalkUp(up, up[current], ancestors + {current}));
  }

  lemma ScanEnds(up: Links, index: int, walk: seq<int>, current: int, ancestors: set<int>)
    requires Scanned(up, index, walk, current, ancestors) && current !in ancestors && current !in up
    ensures !Loops(up, index) && |WalkUp(up, index, {})| - 1 == |walk|
  {
    assert WalkUp(up, current, ancestors) == [current];
  }

  lemma ScanCloses(up: Links, index: int, walk: seq<int>, current: int, ancestors: set<int>)
    requires Scanned(up, index, walk, current, ancestors) && current in ancestors
    ensures Loops(up, index)
  {
    assert WalkUp(up, index, {}) == walk;
  }

  method OrderContainers(entries: seq<DocContainer>) returns (r: Outcome<seq<DocContainer>>)
    ensures r == Ordered(entries)
  {
    hide Loops, EntryLinks, KeysDistinct, StableSort, Depth;
    var positions, duplicate := IndexPositions(entries);
    if duplicate {
      return Err(Validation);
    }
    var placed: seq<Placed> := [];
    for index := 0 to |entries|
      invariant |placed| == index
      invariant forall i :: 0 <= i < index ==> !Loops(EntryLinks(entries), i)
      invariant forall i :: 0 <= i < index ==> placed[i] == Placed(entries[i], Depth(entries, i))
    {
      var depth, cycle := ScanDepth(entries, positions, index);
      if cycle {
        return Err(Validation);
      }
      placed := placed + [Placed(entries[index], depth)];
    }
    assert placed == Place(entries);
    return Ok(EntriesOf(StableSort(placed, PlacedOrder)));
  }
}
