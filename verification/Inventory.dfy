/**
 The entities of the inventory and the rules every adapter applies to them before
 it writes: normalisation trims the text fields, validation checks them.
 */
module Inventory {
  import opened Text
  import opened Sorting

  datatype Option<+T> = None | Some(value: T)

  /** `Broken` is an error of no class: something that should be there is not. */
  datatype Error = NotFound | Conflict | Cycle | Validation | Ambiguous(candidates: seq<string>) | Broken

  datatype Outcome<+T> = Ok(value: T) | Err(error: Error)

  datatype Kind = RoomKind | ContainerKind | OtherKind(text: string)

  /** Where something is: `id` is a room id or a container id, as `kind` says. */
  datatype Location = Location(kind: Kind, id: int)

  datatype Room = Room(id: int, name: string, description: string)

  datatype Container = Container(id: int, roomId: int, parent: Option<int>, name: string, description: string)

  datatype Item = Item(
    id: int, name: string, description: string, quantity: int, notes: string,
    tags: seq<string>, aliases: seq<string>, location: Location)

  const MAX_NAME := 120
  const MAX_DESCRIPTION := 2000
  const MAX_NOTES := 4000
  const MAX_QUANTITY := 1_000_000
  const MAX_TAG := 40
  const MAX_LABELS := 20

  function InRoom(id: int): Location { Location(RoomKind, id) }

  function InContainer(id: int): Location { Location(ContainerKind, id) }

  function NormalRoom(room: Room): Room {
    room.(name := Trim(room.name), description := Trim(room.description))
  }

  function NormalContainer(container: Container): Container {
    container.(name := Trim(container.name), description := Trim(container.description))
  }

  function NormalItem(item: Item): Item {
    item.(name := Trim(item.name), description := Trim(item.description), notes := Trim(item.notes),
          tags := TrimAll(item.tags), aliases := TrimAll(item.aliases))
  }

  predicate ValidText(text: string, max: int) {
    |Trim(text)| <= max
  }

  predicate ValidName(name: string) {
    Trim(name) != "" && ValidText(name, MAX_NAME)
  }

  predicate ValidRoom(room: Room) {
    ValidName(room.name) && ValidText(room.description, MAX_DESCRIPTION)
  }

  predicate ValidContainer(container: Container) {
    && ValidName(container.name) && ValidText(container.description, MAX_DESCRIPTION)
    && container.roomId > 0
    && (container.parent.Some? ==>
      container.parent.value > 0 && !(container.id != 0 && container.parent.value == container.id))
  }

  /** Tags and aliases: few, none empty or too long, no two equal ignoring case. */
  predicate ValidLabels(labels: seq<string>, max: int) {
    && |labels| <= MAX_LABELS
    && (forall tag :: tag in labels ==> Trim(tag) != "" && ValidText(tag, max))
    && (forall tag :: tag in labels ==> multiset(labels)[tag] == 1)
    && (forall a, b :: a in labels && b in labels && ScopeKey(a) == ScopeKey(b) ==> a == b)
  }

  predicate ValidLocation(location: Location) {
    !location.kind.OtherKind? && location.id > 0
  }

  predicate ValidItem(item: Item) {
    && ValidName(item.name) && ValidText(item.description, MAX_DESCRIPTION) && ValidText(item.notes, MAX_NOTES)
    && 0 <= item.quantity <= MAX_QUANTITY
    && ValidLabels(item.tags, MAX_TAG) && ValidLabels(item.aliases, MAX_NAME)
    && ValidLocation(item.location)
  }

  /** Labels are read back ordered ignoring case, then by their exact text. */
  function LabelOrder(tag: string): seq<Part> {
    [Word(ScopeKey(tag)), Word(tag)]
  }

  function StoredLabels(labels: seq<string>): seq<string> {
    StableSort(labels, LabelOrder)
  }

  /** An item as the database hands it back. */
  function StoredItem(item: Item): Item {
    item.(tags := StoredLabels(item.tags), aliases := StoredLabels(item.aliases))
  }

  lemma LabelsTellApart(labels: seq<string>)
    ensures KeysTellApart(labels, LabelOrder)
  {
    forall i, j | 0 <= i < |labels| && 0 <= j < |labels| && LabelOrder(labels[i]) == LabelOrder(labels[j])
      ensures labels[i] == labels[j]
    {
      assert LabelOrder(labels[i])[1] == LabelOrder(labels[j])[1];
    }
  }

  lemma StoredLabelsTwice(labels: seq<string>)
    ensures StoredLabels(StoredLabels(labels)) == StoredLabels(labels)
  {
    SortSorted(labels, LabelOrder);
    LabelsTellApart(StoredLabels(labels));
    SortKeepsSorted(StoredLabels(labels), LabelOrder);
  }

  lemma StoredLabelsKeepMembers(labels: seq<string>)
    ensures |StoredLabels(labels)| == |labels|
    ensures forall tag :: tag in StoredLabels(labels) <==> tag in labels
  {
    SortPermutes(labels, LabelOrder);
    assert |multiset(StoredLabels(labels))| == |multiset(labels)|;
    forall tag ensures tag in StoredLabels(labels) <==> tag in labels {
      assert tag in multiset(StoredLabels(labels)) <==> tag in multiset(labels);
    }
  }

  lemma StoredLabelsValid(labels: seq<string>, max: int)
    requires ValidLabels(labels, max)
    ensures ValidLabels(StoredLabels(labels), max)
  {
    StoredLabelsKeepMembers(labels);
    SortPermutes(labels, LabelOrder);
  }

  lemma StoredLabelsTrimmed(labels: seq<string>)
    requires TrimAll(labels) == labels
    ensures TrimAll(StoredLabels(labels)) == StoredLabels(labels)
  {
    var stored := StoredLabels(labels);
    StoredLabelsKeepMembers(labels);
    forall i | 0 <= i < |stored| ensures TrimAll(stored)[i] == stored[i] {
      assert stored[i] in labels;
      var j :| 0 <= j < |labels| && labels[j] == stored[i];
      assert TrimAll(labels)[j] == labels[j];
    }
  }

  /** A row is at rest when writing it back would change none of its fields. */
  predicate RoomAtRest(room: Room) {
    NormalRoom(room) == room && ValidRoom(room)
  }

  predicate ContainerAtRest(container: Container) {
    NormalContainer(container) == container && ValidContainer(container)
  }

  predicate ItemAtRest(item: Item) {
    NormalItem(item) == item && StoredItem(item) == item && ValidItem(item)
  }

  lemma RoomRests(room: Room, id: int)
    requires ValidRoom(NormalRoom(room))
    ensures RoomAtRest(NormalRoom(room).(id := id))
  {
    TrimTwice(room.name);
    TrimTwice(room.description);
  }

  lemma ContainerRests(container: Container, id: int)
    requires ValidContainer(NormalContainer(container)) && container.parent != Some(id)
    ensures ContainerAtRest(NormalContainer(container).(id := id))
  {
    TrimTwice(container.name);
    TrimTwice(container.description);
  }

  lemma ItemRests(item: Item, id: int)
    requires ValidItem(NormalItem(item))
    ensures ItemAtRest(StoredItem(NormalItem(item)).(id := id))
  {
    var tags, aliases := TrimAll(item.tags), TrimAll(item.aliases);
    TrimTwice(item.name);
    TrimTwice(item.description);
    TrimTwice(item.notes);
    TrimAllTwice(item.tags);
    TrimAllTwice(item.aliases);
    StoredLabelsTrimmed(tags);
    StoredLabelsTrimmed(aliases);
    StoredLabelsTwice(tags);
    StoredLabelsTwice(aliases);
    StoredLabelsValid(tags, MAX_TAG);
    StoredLabelsValid(aliases, MAX_NAME);
  }

  /** Labels come back ordered by their text ignoring ASCII case, then by their exact text. */
  lemma StoredLabelsInOrder(labels: seq<string>, i: nat, j: nat)
    requires i < j < |StoredLabels(labels)|
    ensures var stored := StoredLabels(labels);
      && !Less(ScopeKey(stored[j]), ScopeKey(stored[i]))
      && (ScopeKey(stored[i]) == ScopeKey(stored[j]) ==> !Less(stored[j], stored[i]))
  {
    hide ScopeKey, Less, KeyLess;
    var stored := StoredLabels(labels);
    SortSorted(labels, LabelOrder);
    var a, b := LabelOrder(stored[i]), LabelOrder(stored[j]);
    PartsInOrder(a, b, 0);
    if ScopeKey(stored[i]) == ScopeKey(stored[j]) {
      assert a[..1] == b[..1];
      PartsInOrder(a, b, 1);
    }
  }
}
