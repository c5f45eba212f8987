/**
 Families of accepted documents whose import fails: names that are not in the form the
 store keeps, and stored nestings turned upside down.
 */
module BackupFailures {
  import opened Sequences
  import opened Text
  import opened Sorting
  import opened Inventory
  import opened Forest
  import opened StoreModel
  import opened StoreInvariant
  import opened StoreExamples
  import opened BackupDocument
  import opened BackupOrder
  import opened BackupNames
  import opened BackupImport
  import opened BackupSteps
  import opened BackupOverlay
  import opened BackupCheck
  import opened BackupCycles
  import opened BackupStored
  import opened BackupWorld
  import opened BackupApply
  import opened BackupPromises

  // ---- Names that are not in the form of the store -----------------------------------------

  lemma UntrimmedNotKnown(s: State, key: NameKey)
    requires Sound(s) && !Rests(key)
    ensures key !in View(s) && key !in World(s)
  {
    hide Sound, View, StoreKey;
    ViewKnowsWorld(s, key);
    if key in View(s) {
      KnownRests(s, key);
    }
  }

  lemma UntrimmedKey(e: DocContainer)
    ensures Rests(KeyOf(ContainerEntry(e))) <==> Trim(e.name) == e.name
  {
    FoldedTrimmed(e.name);
  }

  /** A new name under known names is stored as it is asked for. */
  lemma NewContainerStored(s: State, e: DocContainer)
    requires Sound(s) && NamesKnown(s, e) && CleanContainer(e) && KeyOf(ContainerEntry(e)) !in World(s)
    ensures EntryStep(s, ContainerEntry(e)).1 == Ok(Created)
  {
    hide Sound, View;
    ContainerStepPuts(s, e);
    ViewKnowsWorld(s, KeyOf(ContainerEntry(e)));
  }

  /** An entry whose container name is not trimmed: created, or refused with a conflict. */
  lemma UntrimmedStepExact(s: State, m: Maps, e: DocContainer)
    requires Sound(s) && InStep(m, World(s)) && NamesKnown(s, e)
    requires ValidContainer(ContainerTarget(e, 1, None)) && Trim(e.name) != e.name
    ensures ContainerBy(s, m, e).2 == if StoreKey(KeyOf(ContainerEntry(e))) in World(s) then Err(Conflict) else Ok(Created)
  {
    hide Sound, View, InStep, Follows, ContainerBy, EntryStep, Trim, ScopeKey, ValidContainer, ContainerTarget;
    InStepFollows(s, m);
    UntrimmedKey(e);
    UntrimmedNotKnown(s, KeyOf(ContainerEntry(e)));
    ContainerAgrees(s, m, View(s).Keys, e);
    ViewKnowsWorld(s, RoomName(ScopeKey(e.room)));
    ViewKnowsWorld(s, ContainerName(ParentKey(e)));
    if StoreKey(KeyOf(ContainerEntry(e))) !in World(s) {
      StoredNamesKnown(s, e);
      StoredClean(ContainerEntry(e));
      StoredKey(ContainerEntry(e));
      NewContainerStored(s, StoredContainer(e));
    }
  }

  lemma StoredNamesKnown(s: State, e: DocContainer)
    requires Sound(s) && NamesKnown(s, e) && StoreKey(KeyOf(ContainerEntry(e))) !in World(s)
    ensures NamesKnown(s, StoredContainer(e))
  {
    hide Sound, View, Trim, ScopeKey;
    var parent := ContainerName(ParentKey(e));
    if e.parent != "" {
      ViewKnowsWorld(s, parent);
      KnownRests(s, parent);
      StoredParentKey(e);
      StoredKey(ContainerEntry(e));
    } else {
      TrimIdentity("");
    }
  }

  /** An item entry that gives a room and a container: created, or refused with a conflict. */
  lemma CrowdedStepExact(s: State, m: Maps, e: DocItem)
    requires Sound(s) && InStep(m, World(s)) && e.location.kind.RoomKind? && e.location.container != ""
    requires RoomName(ScopeKey(e.location.room)) in World(s) && ValidItem(ItemTarget(e, InRoom(1)))
    ensures ItemBy(s, m, e).2 == if StoreKey(KeyOf(ItemEntry(e))) in World(s) then Err(Conflict) else Ok(Created)
  {
    hide Sound, View, InStep, Follows, ItemBy, EntryStep, Trim, ScopeKey, ValidItem, ItemTarget;
    InStepFollows(s, m);
    ScopeKeyEmpty(e.location.container);
    UntrimmedNotKnown(s, KeyOf(ItemEntry(e)));
    ItemAgrees(s, m, View(s).Keys, e);
    ViewKnowsWorld(s, RoomName(ScopeKey(e.location.room)));
    if StoreKey(KeyOf(ItemEntry(e))) !in World(s) {
      StoredClean(ItemEntry(e));
      StoredKey(ItemEntry(e));
      NewItemStored(s, e.(location := StoredPlace(e.location)));
    }
  }

  lemma NewItemStored(s: State, e: DocItem)
    requires Sound(s) && CleanItem(e) && PlaceNamed(s, e.location) && KeyOf(ItemEntry(e)) !in World(s)
    ensures EntryStep(s, ItemEntry(e)).1 == Ok(Created)
  {
    hide Sound, View;
    ItemStepPuts(s, e);
    ViewKnowsWorld(s, KeyOf(ItemEntry(e)));
  }

  function OneContainer(e: DocContainer): Document {
    Document(FORMAT, VERSION, [], [e], [])
  }

  lemma OneContainerOrdered(e: DocContainer)
    requires e.parent != "" ==> ScopeKey(e.parent) != ScopeKey(e.name)
    ensures Ordered([e]) == Ok([e])
    ensures Script(OneContainer(e)) == [ContainerEntry(e)]
  {
    var up := EntryLinks([e]);
    assert forall i :: i in up ==> HangsFrom([e], i, up[i]);
    OrderedFailsIff([e]);
    assert forall k :: k !in up;
    assert !HasCycle(up);
    assert Ordered([e]).Ok?;
    OrderedPermutes([e]);
    PermutedMembers(Ordered([e]).value, [e]);
    var ordered := Ordered([e]).value;
    assert ordered[0] in [e];
    assert ordered == [e];
  }

  /** A document of one container is accepted when it is valid and what it refers to is in the store. */
  lemma OneContainerAccepted(s: State, e: DocContainer)
    requires Sound(s)
    ensures Accepts(s, OneContainer(e)) <==> NamesKnown(s, e) && ValidContainer(ContainerTarget(e, 1, None))
  {
    hide Sound, Ordered, Script, ScopeKey, ContainerTarget, ValidContainer;
    var doc := OneContainer(e);
    assert ContainerAccepted(s, doc, doc.containers[0]) <==> NamesKnown(s, e) && ValidContainer(ContainerTarget(e, 1, None));
    if NamesKnown(s, e) {
      OneContainerOrdered(e);
    }
  }

  lemma OneContainerEntries(s: State, e: DocContainer)
    requires Sound(s) && NamesKnown(s, e)
    ensures Ordered([e]).Ok? && Script(OneContainer(e)) == [ContainerEntry(e)]
  {
    hide Sound, Script;
    OneContainerOrdered(e);
  }

  /**
   An accepted document of one untrimmed container fails with ErrConflict exactly when
   its room holds a container of the trimmed name.
   */
  lemma UntrimmedImportExact(s: State, m: Maps, e: DocContainer)
    requires Sound(s) && InStep(m, World(s)) && Trim(e.name) != e.name && Accepts(s, OneContainer(e))
    ensures ApplyBy(s, m, Script(OneContainer(e))).error ==
      if StoreKey(KeyOf(ContainerEntry(e))) in World(s) then Some(Conflict) else None
  {
    hide Sound, InStep, Trim, Script, ContainerBy, ValidContainer, NamesKnown, ContainerTarget;
    OneContainerAccepted(s, e);
    OneContainerEntries(s, e);
    UntrimmedStepExact(s, m, e);
  }

  /** A container under an untrimmed and under its trimmed name. */
  function Twins(e: DocContainer): Document {
    Document(FORMAT, VERSION, [], [e, e.(name := Trim(e.name))], [])
  }

  lemma TwinKeysApart(e: DocContainer)
    requires Trim(e.name) != e.name
    ensures EntryKey(e) != EntryKey(e.(name := Trim(e.name)))
  {
    hide Trim;
    FoldedTrimmed(e.name);
    TrimTwice(e.name);
    FoldedTrimmed(Trim(e.name));
  }

  lemma TwinsOrdered(e: DocContainer)
    requires Trim(e.name) != e.name && e.parent == ""
    ensures Ordered(Twins(e).containers).Ok?
  {
    hide Trim, ScopeKey;
    var entries := Twins(e).containers;
    TwinKeysApart(e);
    var up := EntryLinks(entries);
    assert forall i :: i in up ==> HangsFrom(entries, i, up[i]);
    assert forall k :: k !in up;
    OrderedFailsIff(entries);
    assert !HasCycle(up);
  }

  lemma TwinsAccepted(s: State, e: DocContainer)
    requires Sound(s) && RoomName(ScopeKey(e.room)) in World(s) && ValidContainer(ContainerTarget(e, 1, None))
    requires Trim(e.name) != e.name && e.parent == ""
    ensures Accepts(s, Twins(e)) && Closed(Twins(e))
  {
    hide Sound, Trim, ScopeKey, Ordered;
    var doc := Twins(e);
    TwinsOrdered(e);
    TrimTwice(e.name);
    forall i | 0 <= i < |doc.containers| ensures ContainerAccepted(s, doc, doc.containers[i]) {
    }
  }

  /** Two entries the document tells apart and the store does not: one of them collides. */
  lemma MeetingCollides(view: NameView, script: seq<Entry>, i: int, j: int)
    requires Resting(view) && 0 <= i < j < |script| && KeyOf(script[i]) != KeyOf(script[j])
    requires StoreKey(KeyOf(script[i])) == StoreKey(KeyOf(script[j]))
    ensures !NoneCollides(view, script, |script|)
  {
    hide StoreKey, KeyOf;
    if KeyOf(script[j]) in view {
      assert Rests(KeyOf(script[j]));
      assert Collides(view, script, i);
    } else {
      assert Collides(view, script, j);
    }
  }

  /**
   The twins are accepted by every store that has their room, and fail with ErrConflict
   in every one, whether or not a container of that name is there.
   */
  lemma TwinsFail(s: State, m: Maps, e: DocContainer)
    requires Sound(s) && InStep(m, World(s))
    requires RoomName(ScopeKey(e.room)) in World(s) && ValidContainer(ContainerTarget(e, 1, None))
    requires Trim(e.name) != e.name && e.parent == ""
    ensures Accepts(s, Twins(e)) && ApplyBy(s, m, Script(Twins(e))).error == Some(Conflict)
  {
    hide Sound, InStep, View, Trim, ScopeKey, ApplyBy, Accepts, Closed, CanonicalNames, Twins, Collides, ContainerTarget, Resting, NoneCollides;
    TwinsAccepted(s, e);
    ClosedImportOverlays(s, m, Twins(e));
    SoundRests(s);
    TwinsInScript(e);
    var script := Script(Twins(e));
    MeetingCollides(View(s), script, 0, 1);
  }

  lemma TwinsInScript(e: DocContainer)
    requires Trim(e.name) != e.name && e.parent == ""
    ensures Ordered(Twins(e).containers).Ok?
    ensures var script := Script(Twins(e));
      && |script| == 2 && KeyOf(script[0]) != KeyOf(script[1])
      && StoreKey(KeyOf(script[0])) == StoreKey(KeyOf(script[1]))
  {
    hide Ordered, Trim, ScopeKey;
    TwinsOrdered(e);
    var doc, ordered := Twins(e), Ordered(Twins(e).containers).value;
    OrderedSameEntries(doc.containers);
    TwinKeysApart(e);
    TrimTwice(e.name);
    TrimFolds(e.name);
    TrimFolds(Trim(e.name));
    assert ordered[0] in doc.containers && ordered[1] in doc.containers;
    assert EntryKey(ordered[0]) != EntryKey(ordered[1]);
  }

  // ---- Stored nestings turned upside down ------------------------------------------------------

  lemma ContainerNamesFound(s: State, id: int)
    requires Sound(s) && id in s.containers
    ensures var c := s.containers[id];
      && c.roomId in s.rooms && RoomName(ScopeKey(s.rooms[c.roomId].name)) in World(s)
      && KeyOfContainer(s.rooms, c) == ContainerName(ContainerKey(ScopeKey(s.rooms[c.roomId].name), ScopeKey(c.name)))
      && KeyOfContainer(s.rooms, c) in World(s) && World(s)[KeyOfContainer(s.rooms, c)] == ContainerRow(c)
      && c.id == id && ContainerAtRest(c)
  {
    assert HasRow(s, ContainerRow(s.containers[id]));
    assert HasRow(s, RoomRow(s.rooms[s.containers[id].roomId]));
  }

  /** The document that hangs `a` from `b`, by their names. */
  function Inversion(s: State, a: int, b: int): Document
    requires a in s.containers && b in s.containers && s.containers[a].roomId in s.rooms
  {
    OneContainer(DocContainer(s.rooms[s.containers[a].roomId].name, s.containers[b].name, s.containers[a].name, s.containers[a].description))
  }

  lemma RestingFields(c: Container)
    requires ContainerAtRest(c)
    ensures Trim(c.name) == c.name && Trim(c.description) == c.description
    ensures ValidName(c.name) && ValidText(c.description, MAX_DESCRIPTION)
  {
  }

  lemma InversionEntry(s: State, a: int, b: int)
    requires a in s.containers && b in s.containers && s.containers[a].roomId in s.rooms
    requires ContainerAtRest(s.containers[a])
    ensures ValidContainer(ContainerTarget(Inversion(s, a, b).containers[0], 1, None))
  {
  }

  /** An entry that hangs from a container it does not declare. */
  lemma OneContainerOpen(s: State, e: DocContainer)
    requires Sound(s) && NamesKnown(s, e) && e.parent != "" && CleanContainer(e)
    ensures CanonicalNames(OneContainer(e)) && !Closed(OneContainer(e))
  {
    hide Sound, ScopeKey, Trim;
    assert OneContainer(e).containers[0].parent != "";
  }

  lemma InversionAccepted(s: State, a: int, b: int)
    requires Sound(s) && a in s.containers && b in s.containers && s.containers[b].parent == Some(a)
    ensures s.containers[a].roomId in s.rooms
    ensures var doc := Inversion(s, a, b);
      Accepts(s, doc) && CanonicalNames(doc) && !Closed(doc) && CleanContainer(doc.containers[0])
  {
    hide Sound, Accepts, Closed, CanonicalNames, ScopeKey, ContainerAtRest, ContainerTarget, ValidContainer;
    ContainerNamesFound(s, a);
    ContainerNamesFound(s, b);
    InversionEntry(s, a, b);
    RestingFields(s.containers[a]);
    RestingFields(s.containers[b]);
    SiblingNamesApart(s, a, b);
    OneContainerAccepted(s, Inversion(s, a, b).containers[0]);
    OneContainerOpen(s, Inversion(s, a, b).containers[0]);
  }

  lemma InversionCircular(s: State, a: int, b: int)
    requires Sound(s) && a in s.containers && b in s.containers && s.containers[b].parent == Some(a)
    ensures s.containers[a].roomId in s.rooms
    ensures var e := Inversion(s, a, b).containers[0]; NamesKnown(s, e) && Circular(s, e)
  {
    ContainerNamesFound(s, a);
    ContainerNamesFound(s, b);
    SiblingNamesApart(s, a, b);
    AncestorMeets(s.containers, a, b);
  }

  /**
   Turning a stored nesting upside down without declaring both containers: the
   document is accepted and canonical, and the import fails with ErrCycle.
   */
  lemma InversionFails(s: State, m: Maps, a: int, b: int)
    requires Sound(s) && InStep(m, World(s)) && a in s.containers && b in s.containers && s.containers[b].parent == Some(a)
    ensures s.containers[a].roomId in s.rooms
    ensures var doc := Inversion(s, a, b);
      Accepts(s, doc) && CanonicalNames(doc) && !Closed(doc) && ApplyBy(s, m, Script(doc)).error == Some(Cycle)
  {
    hide Sound, InStep, ApplyBy, Script, Accepts, CanonicalNames, Closed, NeverCircular, Circular, ContainerAccepted;
    InversionAccepted(s, a, b);
    var doc := Inversion(s, a, b);
    var e := doc.containers[0];
    InversionCircular(s, a, b);
    CircularNames(s, e);
    ImportFailsOnlyOnCircles(s, m, doc);
    OneContainerOrdered(e);
    OnePrefix(View(s), ContainerEntry(e));
  }

  lemma SiblingNamesApart(s: State, a: int, b: int)
    requires Sound(s) && a in s.containers && b in s.containers && s.containers[b].parent == Some(a)
    ensures a != b && s.containers[a].roomId == s.containers[b].roomId
    ensures ScopeKey(s.containers[a].name) != ScopeKey(s.containers[b].name)
  {
    assert ContainerAtRest(s.containers[b]);
    assert !SameRoomAndName(s.containers[a], s.containers[b]);
  }

  lemma AncestorMeets(cs: Containers, a: int, b: int)
    requires IsForest(cs) && a in cs && b in cs && cs[b].parent == Some(a)
    ensures WalkMeets(cs, b, a)
  {
    MeetsIsReaches(cs, b, a);
    assert ParentLinks(cs)[b] == a;
    assert Chain(ParentLinks(cs), b) == [b] + Chain(ParentLinks(cs), a);
  }

  lemma OnePrefix(view: NameView, entry: Entry)
    requires !NamesAcyclic(view[KeyOf(entry) := FactsFrom(entry)])
    ensures !NeverCircular(view, [entry], 0)
  {
    hide NamesAcyclic, KeyOf, FactsFrom;
    assert [entry][..1] == [] + [entry];
    DocViewAppend([], entry);
    assert view + DocView([entry][..1]) == view[KeyOf(entry) := FactsFrom(entry)];
  }

  /** In a reachable store: untrimmed names that are taken and that are free, in documents it accepts. */
  lemma UntrimmedAccepted() returns (s: State, taken: DocContainer, free: DocContainer)
    ensures Reachable(s) && Sound(s)
    ensures Trim(taken.name) != taken.name && Accepts(s, OneContainer(taken))
    ensures StoreKey(KeyOf(ContainerEntry(taken))) in World(s)
    ensures Trim(free.name) != free.name && Accepts(s, OneContainer(free))
    ensures StoreKey(KeyOf(ContainerEntry(free))) !in World(s)
  {
    hide Sound, Accepts;
    s := NestedStore();
    taken, free := DocContainer("G", "", " B", ""), DocContainer("G", "", " CD", "");
    TrimsOneSpace("B");
    TrimsOneSpace("CD");
    NamedInG(s, taken, "B");
    NamedInG(s, free, "CD");
    ContainerNamesFound(s, 2);
    if StoreKey(KeyOf(ContainerEntry(free))) in World(s) {
      FoundContainer(s, ContainerKey(ScopeKey("G"), ScopeKey("CD")));
      ShortNames(s, World(s)[StoreKey(KeyOf(ContainerEntry(free)))].container);
    }
  }

  lemma TrimsOneSpace(name: string)
    requires name != "" && Trimmed(name)
    ensures Trim(" " + name) == name
  {
    assert (" " + name)[1..] == name;
    assert TrimLeft(" " + name) == TrimLeft(name);
    TrimIdentity(name);
    assert TrimLeft(name) == name;
  }

  lemma NamedInG(s: State, e: DocContainer, name: string)
    requires Sound(s) && s.rooms == map[1 := Room(1, "G", "")]
    requires e == DocContainer("G", "", " " + name, "") && Trim(" " + name) == name && 0 < |name| <= MAX_NAME && Trim(name) == name
    ensures Accepts(s, OneContainer(e))
    ensures StoreKey(KeyOf(ContainerEntry(e))) == ContainerName(ContainerKey(ScopeKey("G"), ScopeKey(name)))
  {
    hide Sound, Accepts;
    assert HasRow(s, RoomRow(s.rooms[1]));
    TrimIdentity("");
    TrimFolds(" " + name);
    OneContainerAccepted(s, e);
  }

  lemma ShortNames(s: State, c: Container)
    requires s.containers == map[1 := Container(1, 1, None, "A", ""), 2 := Container(2, 1, Some(1), "B", "")]
    requires c.id in s.containers && s.containers[c.id] == c
    ensures ScopeKey(c.name) != ScopeKey("CD")
  {
    assert |ScopeKey(c.name)| == 1 && |ScopeKey("CD")| == 2;
  }

  // ---- Labels that are not in stored order -------------------------------------------------------

  function OneItem(e: DocItem): Document {
    Document(FORMAT, VERSION, [], [], [e])
  }

  lemma NothingOrdered()
    ensures Ordered([]) == Ok([])
  {
    OrderedFailsIff([]);
    assert !HasCycle(EntryLinks([]));
    OrderedPermutes([]);
    assert |multiset(Ordered([]).value)| == 0;
  }

  lemma OneItemAccepted(s: State, e: DocItem)
    requires Sound(s) && e.location.kind.RoomKind? && RoomName(ScopeKey(e.location.room)) in World(s)
    requires ValidItem(ItemTarget(e, InRoom(1)))
    ensures Accepts(s, OneItem(e)) && Closed(OneItem(e)) && Script(OneItem(e)) == [ItemEntry(e)]
  {
    hide Sound, ScopeKey, ValidItem, Ordered;
    NothingOrdered();
    assert ItemAccepted(s, OneItem(e), e);
  }

  lemma OneItemCanonical(e: DocItem)
    requires e.location.kind.RoomKind? && e.location.container == ""
    ensures CanonicalNames(OneItem(e))
    ensures OrderedLabels(OneItem(e)) <==> Orderly(ItemEntry(e))
  {
    hide StoredLabels;
    assert e in OneItem(e).items;
  }

  /**
   An item that lists its labels out of stored order, in a document that is accepted and
   goes through: importing it again succeeds and rewrites the item every time.
   */
  lemma DisorderlyImport(s: State, m: Maps, e: DocItem, again: Maps)
    requires Sound(s) && InStep(m, World(s))
    requires e.location.kind.RoomKind? && e.location.container == "" && RoomName(ScopeKey(e.location.room)) in World(s)
    requires ValidItem(ItemTarget(e, InRoom(1))) && !Orderly(ItemEntry(e))
    requires InStep(again, World(ApplyBy(s, m, [ItemEntry(e)]).state))
    ensures Accepts(s, OneItem(e)) && Script(OneItem(e)) == [ItemEntry(e)]
    ensures var first := ApplyBy(s, m, [ItemEntry(e)]);
      var second := ApplyBy(first.state, again, [ItemEntry(e)]);
      && first.error.None? && second.error.None?
      && !AllUnchanged(second.fates) && second.state != first.state
  {
    hide Sound, InStep, ApplyBy, Accepts, Closed, Script, ScopeKey, ValidItem, ItemTarget, View, Orderly, AllUnchanged, OneItem;
    hide CanonicalNames, OrderedLabels, NoneCollides, UnmentionedKept, FatesFrom, DocView, StoredAll, Total, ReportOf;
    OneItemAccepted(s, e);
    OneItemCanonical(e);
    ClosedImportOverlays(s, m, OneItem(e));
    SecondImport(s, m, OneItem(e), again);
  }

  lemma SortedPair(first: string, second: string)
    requires Sorted([first, second], LabelOrder)
    ensures !KeyLess(LabelOrder(second), LabelOrder(first))
  {
    assert [first, second][0] == first && [first, second][1] == second;
  }

  /** Two tags in the wrong order. */
  lemma BackwardsLabels()
    ensures StoredLabels(["b", "a"]) != ["b", "a"]
  {
    SortSorted(["b", "a"], LabelOrder);
    assert ScopeKey("a") == "a" && ScopeKey("b") == "b";
    assert Less("a", "b");
    assert KeyLess(LabelOrder("a"), LabelOrder("b"));
    if StoredLabels(["b", "a"]) == ["b", "a"] {
      SortedPair("b", "a");
    }
  }

  /** A reachable store and an item of that kind. */
  lemma BackwardsItem() returns (s: State, e: DocItem)
    ensures Reachable(s) && Sound(s) && e.tags == ["b", "a"]
    ensures e.location.kind.RoomKind? && e.location.container == "" && RoomName(ScopeKey(e.location.room)) in World(s)
    ensures ValidItem(ItemTarget(e, InRoom(1))) && !Orderly(ItemEntry(e))
  {
    hide Sound, Orderly, ValidItem;
    s := NestedStore();
    e := DocItem("X", "", 1, "", ["b", "a"], [], DocLocation(RoomKind, "G", ""));
    assert HasRow(s, RoomRow(s.rooms[1]));
    BackwardsFits(e);
  }

  lemma BackwardsFits(e: DocItem)
    requires e == DocItem("X", "", 1, "", ["b", "a"], [], DocLocation(RoomKind, "G", ""))
    ensures ValidItem(ItemTarget(e, InRoom(1))) && !Orderly(ItemEntry(e))
  {
    hide StoredLabels, ValidLabels;
    BackwardsTags();
    BackwardsLabels();
    TrimIdentity("");
    TrimIdentity("X");
  }

  lemma BackwardsTags()
    ensures TrimAll(["b", "a"]) == ["b", "a"] && ValidLabels(["b", "a"], MAX_TAG)
    ensures TrimAll([]) == [] && ValidLabels([], MAX_NAME)
  {
    TrimIdentity("a");
    TrimIdentity("b");
    assert ScopeKey("a")[0] == 'a' && ScopeKey("b")[0] == 'b';
  }
}
