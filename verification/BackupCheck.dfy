/**
 What a document must look like to be applied: the checks the import itself makes,
 and what a canonical, closed document adds to them.
 */
module BackupCheck {
  import opened Sequences
  import opened Text
  import opened Inventory
  import opened StoreModel
  import opened StoreInvariant
  import opened BackupDocument
  import opened BackupOrder
  import opened BackupNames
  import opened BackupImport
  import opened BackupOverlay

  // ---- The checks of the import -----------------------------------------------------

  ghost predicate KnownRoom(s: State, doc: Document, key: string)
    requires Sound(s)
  {
    RoomName(key) in World(s) || exists i :: 0 <= i < |doc.rooms| && KeyOf(RoomEntry(doc.rooms[i])) == RoomName(key)
  }

  ghost predicate KnownContainer(s: State, doc: Document, key: ContainerKey)
    requires Sound(s)
  {
    ContainerName(key) in World(s) || exists i :: 0 <= i < |doc.containers| && EntryKey(doc.containers[i]) == key
  }

  predicate RoomsAccepted(rooms: seq<DocRoom>) {
    && (forall i :: 0 <= i < |rooms| ==> ValidRoom(RoomTarget(rooms[i])))
    && (forall i, j :: 0 <= i < j < |rooms| ==> KeyOf(RoomEntry(rooms[i])) != KeyOf(RoomEntry(rooms[j])))
  }

  ghost predicate ContainerAccepted(s: State, doc: Document, e: DocContainer)
    requires Sound(s)
  {
    && KnownRoom(s, doc, ScopeKey(e.room))
    && ValidContainer(ContainerTarget(e, 1, None))
    && (e.parent != "" ==> ScopeKey(e.parent) != ScopeKey(e.name) && KnownContainer(s, doc, ParentKey(e)))
  }

  ghost predicate ItemAccepted(s: State, doc: Document, e: DocItem)
    requires Sound(s)
  {
    && ValidItem(ItemTarget(e, Location(e.location.kind, 1)))
    && (if e.location.kind.ContainerKind?
        then KnownContainer(s, doc, ContainerKey(ScopeKey(e.location.room), ScopeKey(e.location.container)))
        else KnownRoom(s, doc, ScopeKey(e.location.room)))
  }

  predicate ItemKeysDistinct(items: seq<DocItem>) {
    forall i, j :: 0 <= i < j < |items| ==> DocItemKey(items[i]) != DocItemKey(items[j])
  }

  /** The document is accepted as a whole. */
  ghost predicate Accepts(s: State, doc: Document)
    requires Sound(s)
  {
    && RoomsAccepted(doc.rooms)
    && Ordered(doc.containers).Ok?
    && (forall i :: 0 <= i < |doc.containers| ==> ContainerAccepted(s, doc, doc.containers[i]))
    && (forall i :: 0 <= i < |doc.items| ==> ItemAccepted(s, doc, doc.items[i]))
    && ItemKeysDistinct(doc.items)
  }

  // ---- What an import needs beyond them ------------------------------------------------

  /** Container names are trimmed, and a place in a room names no container. */
  predicate CanonicalNames(doc: Document) {
    && (forall e :: e in doc.containers ==> Trim(e.name) == e.name)
    && (forall e :: e in doc.items && e.location.kind.RoomKind? ==> e.location.container == "")
  }

  /** Labels are in the order the database gives them back in. */
  predicate OrderedLabels(doc: Document) {
    forall e :: e in doc.items ==>
      StoredLabels(TrimAll(e.tags)) == TrimAll(e.tags) && StoredLabels(TrimAll(e.aliases)) == TrimAll(e.aliases)
  }

  predicate Canonical(doc: Document) {
    CanonicalNames(doc) && OrderedLabels(doc)
  }

  /** Every parent a container names is itself an entry. */
  predicate Closed(doc: Document) {
    forall i :: 0 <= i < |doc.containers| && doc.containers[i].parent != "" ==>
      exists j :: 0 <= j < |doc.containers| && EntryKey(doc.containers[j]) == ParentKey(doc.containers[i])
  }

  // ---- The document as a script ------------------------------------------------------

  function RoomEntries(rooms: seq<DocRoom>): (r: seq<Entry>)
    ensures |r| == |rooms| && forall i :: 0 <= i < |r| ==> r[i] == RoomEntry(rooms[i])
  {
    seq(|rooms|, i requires 0 <= i < |rooms| => RoomEntry(rooms[i]))
  }

  function ContainerEntries(containers: seq<DocContainer>): (r: seq<Entry>)
    ensures |r| == |containers| && forall i :: 0 <= i < |r| ==> r[i] == ContainerEntry(containers[i])
  {
    seq(|containers|, i requires 0 <= i < |containers| => ContainerEntry(containers[i]))
  }

  function ItemEntries(items: seq<DocItem>): (r: seq<Entry>)
    ensures |r| == |items| && forall i :: 0 <= i < |r| ==> r[i] == ItemEntry(items[i])
  {
    seq(|items|, i requires 0 <= i < |items| => ItemEntry(items[i]))
  }

  /** Rooms first, then containers with parents before children, then items. */
  function ScriptOf(rooms: seq<DocRoom>, ordered: seq<DocContainer>, items: seq<DocItem>): seq<Entry> {
    RoomEntries(rooms) + ContainerEntries(ordered) + ItemEntries(items)
  }

  ghost function Script(doc: Document): seq<Entry>
    requires Ordered(doc.containers).Ok?
  {
    ScriptOf(doc.rooms, Ordered(doc.containers).value, doc.items)
  }

  lemma ScriptAt(rooms: seq<DocRoom>, ordered: seq<DocContainer>, items: seq<DocItem>, i: int)
    requires 0 <= i < |rooms| + |ordered| + |items|
    ensures |ScriptOf(rooms, ordered, items)| == |rooms| + |ordered| + |items|
    ensures ScriptOf(rooms, ordered, items)[i] ==
      if i < |rooms| then RoomEntry(rooms[i])
      else if i < |rooms| + |ordered| then ContainerEntry(ordered[i - |rooms|])
      else ItemEntry(items[i - |rooms| - |ordered|])
  {
  }

  lemma OrderedSameEntries(entries: seq<DocContainer>)
    requires Ordered(entries).Ok?
    ensures var ordered := Ordered(entries).value;
      && |ordered| == |entries| && KeysDistinct(ordered)
      && (forall e :: e in ordered <==> e in entries)
  {
    OrderedPermutes(entries);
    PermutedKeysDistinct(entries, Ordered(entries).value);
    PermutedMembers(entries, Ordered(entries).value);
  }

  lemma ScriptNamesDistinct(rooms: seq<DocRoom>, ordered: seq<DocContainer>, items: seq<DocItem>)
    requires RoomsAccepted(rooms) && KeysDistinct(ordered) && ItemKeysDistinct(items)
    ensures NamesDistinct(ScriptOf(rooms, ordered, items))
  {
    var script := ScriptOf(rooms, ordered, items);
    forall i, j | 0 <= i < j < |script| ensures KeyOf(script[i]) != KeyOf(script[j]) {
      ScriptAt(rooms, ordered, items, i);
      ScriptAt(rooms, ordered, items, j);
    }
  }

  lemma MentionedEarlier(view: NameView, script: seq<Entry>, i: int, j: int, key: NameKey)
    requires 0 <= j < i <= |script| && KeyOf(script[j]) == key
    ensures key in view + DocView(script[..i])
  {
    assert script[..i][j] == script[j];
    DocViewMentions(script[..i], key);
  }

  lemma ContainerFoundAt(ordered: seq<DocContainer>, entries: seq<DocContainer>, key: ContainerKey) returns (j: int)
    requires forall e :: e in ordered <==> e in entries
    requires exists i :: 0 <= i < |entries| && EntryKey(entries[i]) == key
    ensures 0 <= j < |ordered| && EntryKey(ordered[j]) == key
  {
    var i :| 0 <= i < |entries| && EntryKey(entries[i]) == key;
    assert entries[i] in ordered;
    j :| 0 <= j < |ordered| && ordered[j] == entries[i];
  }

  lemma RoomIsThere(s: State, doc: Document, key: string, at: int)
    requires Sound(s) && Ordered(doc.containers).Ok? && KnownRoom(s, doc, key) && |doc.rooms| <= at <= |Script(doc)|
    ensures RoomName(key) in View(s) + DocView(Script(doc)[..at])
  {
    if RoomName(key) in World(s) {
      ViewKnowsWorld(s, RoomName(key));
    } else {
      var i :| 0 <= i < |doc.rooms| && KeyOf(RoomEntry(doc.rooms[i])) == RoomName(key);
      ScriptAt(doc.rooms, Ordered(doc.containers).value, doc.items, i);
      MentionedEarlier(View(s), Script(doc), at, i, RoomName(key));
    }
  }

  lemma ParentIsThere(s: State, doc: Document, c: int)
    requires Sound(s) && Ordered(doc.containers).Ok? && 0 <= c < |Ordered(doc.containers).value|
    requires var e := Ordered(doc.containers).value[c]; e.parent != "" && KnownContainer(s, doc, ParentKey(e))
    ensures c + |doc.rooms| < |Script(doc)|
    ensures ContainerName(ParentKey(Ordered(doc.containers).value[c])) in View(s) + DocView(Script(doc)[..c + |doc.rooms|])
  {
    hide Sound, View, ScriptOf, DocView, Accepts, FactsFrom, ScopeKey;
    var ordered, at := Ordered(doc.containers).value, c + |doc.rooms|;
    var key := ParentKey(ordered[c]);
    OrderedSameEntries(doc.containers);
    ScriptAt(doc.rooms, ordered, doc.items, at);
    if ContainerName(key) in World(s) {
      ViewKnowsWorld(s, ContainerName(key));
    } else {
      OrderedParentsFirst(doc.containers);
      var j := ContainerFoundAt(ordered, doc.containers, key);
      assert HangsFrom(ordered, c, j);
      ScriptAt(doc.rooms, ordered, doc.items, j + |doc.rooms|);
      MentionedEarlier(View(s), Script(doc), at, j + |doc.rooms|, ContainerName(key));
    }
  }

  lemma ContainerIsThere(s: State, doc: Document, key: ContainerKey, at: int)
    requires Sound(s) && Ordered(doc.containers).Ok? && KnownContainer(s, doc, key)
    requires |doc.rooms| + |doc.containers| <= at <= |Script(doc)|
    ensures ContainerName(key) in View(s) + DocView(Script(doc)[..at])
  {
    var ordered := Ordered(doc.containers).value;
    if ContainerName(key) in World(s) {
      ViewKnowsWorld(s, ContainerName(key));
    } else {
      OrderedSameEntries(doc.containers);
      var j := ContainerFoundAt(ordered, doc.containers, key);
      ScriptAt(doc.rooms, ordered, doc.items, j + |doc.rooms|);
      MentionedEarlier(View(s), Script(doc), at, j + |doc.rooms|, ContainerName(key));
    }
  }

  lemma ContainerEntryFits(s: State, doc: Document, c: int)
    requires Sound(s) && Accepts(s, doc)
    requires 0 <= c < |Ordered(doc.containers).value|
    ensures c + |doc.rooms| < |Script(doc)|
    ensures Fits(s, doc, c + |doc.rooms|, ContainerEntry(Ordered(doc.containers).value[c]))
  {
    hide Sound, View, DocView, ScriptOf, RoomsAccepted, ItemAccepted, ItemKeysDistinct, KnownRoom, KnownContainer, KeyOf;
    hide ValidContainer, ContainerTarget, EntryKey, ParentKey, ScopeKey;
    var e := Ordered(doc.containers).value[c];
    ScriptLength(doc);
    ContainerIsAccepted(s, doc, c);
    RoomIsThere(s, doc, ScopeKey(e.room), c + |doc.rooms|);
    if e.parent != "" {
      ParentIsThere(s, doc, c);
    }
  }

  lemma ItemPlaceIsThere(s: State, doc: Document, e: DocItem, at: int)
    requires Sound(s) && Ordered(doc.containers).Ok?
    requires if e.location.kind.ContainerKind?
      then KnownContainer(s, doc, ContainerKey(ScopeKey(e.location.room), ScopeKey(e.location.container)))
      else e.location.kind.RoomKind? && KnownRoom(s, doc, ScopeKey(e.location.room))
    requires |doc.rooms| + |doc.containers| <= at <= |Script(doc)|
    ensures PlaceName(e.location) in View(s) + DocView(Script(doc)[..at])
  {
    if e.location.kind.ContainerKind? {
      ContainerIsThere(s, doc, ContainerKey(ScopeKey(e.location.room), ScopeKey(e.location.container)), at);
    } else {
      OrderedSameEntries(doc.containers);
      RoomIsThere(s, doc, ScopeKey(e.location.room), at);
    }
  }

  lemma ScriptLength(doc: Document)
    requires Ordered(doc.containers).Ok?
    ensures |Ordered(doc.containers).value| == |doc.containers|
    ensures |Script(doc)| == |doc.rooms| + |doc.containers| + |doc.items|
  {
    OrderedSameEntries(doc.containers);
  }

  /** The entry is valid and names what is there where it stands in the script. */
  ghost predicate Fits(s: State, doc: Document, i: int, entry: Entry)
    requires Sound(s) && Ordered(doc.containers).Ok? && 0 <= i <= |Script(doc)|
  {
    WellFormed(entry) && Grounded(View(s) + DocView(Script(doc)[..i]), entry)
  }

  lemma ItemEntryFits(s: State, doc: Document, k: int, at: int)
    requires Sound(s) && Accepts(s, doc)
    requires 0 <= k < |doc.items| && at == |doc.rooms| + |doc.containers| + k
    ensures at < |Script(doc)|
    ensures Fits(s, doc, at, ItemEntry(doc.items[k]))
  {
    ScriptLength(doc);
    assert ItemAccepted(s, doc, doc.items[k]);
    ItemPlaceIsThere(s, doc, doc.items[k], at);
  }

  lemma RoomEntryFits(s: State, doc: Document, i: int)
    requires Sound(s) && Accepts(s, doc) && 0 <= i < |doc.rooms|
    ensures WellFormed(RoomEntry(doc.rooms[i]))
  {
  }

  lemma EntryFits(s: State, doc: Document, i: int)
    requires Sound(s) && Accepts(s, doc)
    requires 0 <= i < |Script(doc)|
    ensures Fits(s, doc, i, Script(doc)[i])
  {
    hide Sound, WellFormed, RoomsAccepted, ContainerAccepted, ItemAccepted, ItemKeysDistinct, ScriptOf, DocView;
    ScriptLength(doc);
    ScriptAt(doc.rooms, Ordered(doc.containers).value, doc.items, i);
    if i < |doc.rooms| {
      RoomEntryFits(s, doc, i);
    } else if i < |doc.rooms| + |doc.containers| {
      ContainerEntryFits(s, doc, i - |doc.rooms|);
    } else {
      ItemEntryFits(s, doc, i - |doc.rooms| - |doc.containers|, i);
    }
  }

  /** An accepted document is a valid script whose names are there when they are needed. */
  lemma AcceptedCheckable(s: State, doc: Document)
    requires Sound(s) && Accepts(s, doc)
    ensures Checkable(View(s), Script(doc))
  {
    hide Sound, WellFormed, Grounded, ScriptOf, DocView, ContainerAccepted, ItemAccepted;
    OrderedSameEntries(doc.containers);
    ScriptNamesDistinct(doc.rooms, Ordered(doc.containers).value, doc.items);
    forall i | 0 <= i < |Script(doc)| ensures Fits(s, doc, i, Script(doc)[i]) {
      EntryFits(s, doc, i);
    }
    assert forall i :: 0 <= i < |Script(doc)| ==> Fits(s, doc, i, Script(doc)[i]);
  }

  /** What is there at a point of the script was there before or is declared earlier. */
  lemma DeclaredEarlier(s: State, doc: Document, i: int, key: NameKey) returns (j: int)
    requires Sound(s) && Ordered(doc.containers).Ok? && 0 <= i <= |Script(doc)|
    requires key in View(s) + DocView(Script(doc)[..i]) && key !in World(s)
    ensures 0 <= j < i && KeyOf(Script(doc)[j]) == key
  {
    hide Sound, View, Ordered, ScriptOf, DocView;
    ViewKnowsWorld(s, key);
    DocViewMentions(Script(doc)[..i], key);
    j :| 0 <= j < i && KeyOf(Script(doc)[..i][j]) == key;
  }

  lemma RoomIsKnown(s: State, doc: Document, i: int, key: string)
    requires Sound(s) && Ordered(doc.containers).Ok? && 0 <= i <= |Script(doc)|
    requires RoomName(key) in View(s) + DocView(Script(doc)[..i])
    ensures KnownRoom(s, doc, key)
  {
    hide Sound, View, Ordered, DocView;
    if RoomName(key) !in World(s) {
      var j := DeclaredEarlier(s, doc, i, RoomName(key));
      ScriptLength(doc);
      ScriptAt(doc.rooms, Ordered(doc.containers).value, doc.items, j);
    }
  }

  lemma ContainerIsKnown(s: State, doc: Document, i: int, key: ContainerKey)
    requires Sound(s) && Ordered(doc.containers).Ok? && 0 <= i <= |Script(doc)|
    requires ContainerName(key) in View(s) + DocView(Script(doc)[..i])
    ensures KnownContainer(s, doc, key)
  {
    hide Sound, View, Ordered, DocView;
    if ContainerName(key) !in World(s) {
      var j := DeclaredEarlier(s, doc, i, ContainerName(key));
      var ordered := Ordered(doc.containers).value;
      ScriptLength(doc);
      ScriptAt(doc.rooms, ordered, doc.items, j);
      OrderedSameEntries(doc.containers);
      assert ordered[j - |doc.rooms|] in doc.containers;
    }
  }

  lemma CheckableRooms(view: NameView, doc: Document)
    requires Ordered(doc.containers).Ok? && Checkable(view, Script(doc))
    ensures RoomsAccepted(doc.rooms)
  {
    hide Ordered, ScriptOf, Grounded, DocView;
    var ordered, script := Ordered(doc.containers).value, Script(doc);
    ScriptLength(doc);
    forall i | 0 <= i < |doc.rooms| ensures ValidRoom(RoomTarget(doc.rooms[i])) {
      ScriptAt(doc.rooms, ordered, doc.items, i);
      assert WellFormed(script[i]);
    }
    forall i, j | 0 <= i < j < |doc.rooms| ensures KeyOf(RoomEntry(doc.rooms[i])) != KeyOf(RoomEntry(doc.rooms[j])) {
      ScriptAt(doc.rooms, ordered, doc.items, i);
      ScriptAt(doc.rooms, ordered, doc.items, j);
      assert KeyOf(script[i]) != KeyOf(script[j]);
    }
  }

  lemma CheckableAt(s: State, doc: Document, i: int)
    requires Sound(s) && Ordered(doc.containers).Ok? && Checkable(View(s), Script(doc)) && 0 <= i < |Script(doc)|
    ensures Fits(s, doc, i, Script(doc)[i])
  {
    hide Sound, View, Ordered, ScriptOf, DocView, WellFormed, Grounded, NamesDistinct;
  }

  lemma FittingContainer(s: State, doc: Document, e: DocContainer, i: int)
    requires Sound(s) && Ordered(doc.containers).Ok? && 0 <= i <= |Script(doc)| && Fits(s, doc, i, ContainerEntry(e))
    ensures ContainerAccepted(s, doc, e)
  {
    hide Sound, View, Ordered, ScriptOf, DocView, KnownRoom, KnownContainer, ValidContainer, ContainerTarget, ScopeKey;
    RoomIsKnown(s, doc, i, ScopeKey(e.room));
    if e.parent != "" {
      ContainerIsKnown(s, doc, i, ParentKey(e));
    }
  }

  lemma FittingItem(s: State, doc: Document, e: DocItem, i: int)
    requires Sound(s) && Ordered(doc.containers).Ok? && 0 <= i <= |Script(doc)| && Fits(s, doc, i, ItemEntry(e))
    ensures ItemAccepted(s, doc, e)
  {
    hide Sound, View, Ordered, ScriptOf, DocView, KnownRoom, KnownContainer, ScopeKey;
    if e.location.kind.ContainerKind? {
      ContainerIsKnown(s, doc, i, ContainerKey(ScopeKey(e.location.room), ScopeKey(e.location.container)));
    } else {
      assert e.location.kind.RoomKind?;
      RoomIsKnown(s, doc, i, ScopeKey(e.location.room));
    }
  }

  lemma CheckableContainer(s: State, doc: Document, e: DocContainer)
    requires Sound(s) && Ordered(doc.containers).Ok? && Checkable(View(s), Script(doc)) && e in doc.containers
    ensures ContainerAccepted(s, doc, e)
  {
    hide Sound, View, Ordered, ScriptOf, Checkable, Fits, ContainerAccepted;
    var ordered := Ordered(doc.containers).value;
    OrderedSameEntries(doc.containers);
    ScriptLength(doc);
    var c :| 0 <= c < |ordered| && ordered[c] == e;
    ScriptAt(doc.rooms, ordered, doc.items, c + |doc.rooms|);
    CheckableAt(s, doc, c + |doc.rooms|);
    FittingContainer(s, doc, e, c + |doc.rooms|);
  }

  lemma CheckableItem(s: State, doc: Document, k: int)
    requires Sound(s) && Ordered(doc.containers).Ok? && Checkable(View(s), Script(doc)) && 0 <= k < |doc.items|
    ensures ItemAccepted(s, doc, doc.items[k])
  {
    hide Sound, View, Ordered, ScriptOf, Checkable, Fits, ItemAccepted;
    ScriptLength(doc);
    var i := k + |doc.rooms| + |doc.containers|;
    ScriptAt(doc.rooms, Ordered(doc.containers).value, doc.items, i);
    CheckableAt(s, doc, i);
    FittingItem(s, doc, doc.items[k], i);
  }

  lemma CheckableItems(view: NameView, doc: Document)
    requires Ordered(doc.containers).Ok? && Checkable(view, Script(doc))
    ensures ItemKeysDistinct(doc.items)
  {
    hide Ordered, ScriptOf, Grounded, DocView, WellFormed, DocItemKey;
    var ordered, first := Ordered(doc.containers).value, |doc.rooms| + |doc.containers|;
    ScriptLength(doc);
    forall i, j | 0 <= i < j < |doc.items| ensures DocItemKey(doc.items[i]) != DocItemKey(doc.items[j]) {
      ScriptAt(doc.rooms, ordered, doc.items, first + i);
      ScriptAt(doc.rooms, ordered, doc.items, first + j);
      assert KeyOf(Script(doc)[first + i]) != KeyOf(Script(doc)[first + j]);
    }
  }

  /** Nothing else is asked: a document is accepted exactly when its containers can be ordered
      and every entry is valid, has a name of its own, and finds what it names when its turn comes. */
  lemma AcceptsExactly(s: State, doc: Document)
    requires Sound(s)
    ensures Accepts(s, doc) <==> Ordered(doc.containers).Ok? && Checkable(View(s), Script(doc))
  {
    hide Sound, View, ScriptOf, Ordered, ContainerAccepted, ItemAccepted, RoomsAccepted, ItemKeysDistinct, Checkable;
    if Accepts(s, doc) {
      AcceptedCheckable(s, doc);
    }
    if Ordered(doc.containers).Ok? && Checkable(View(s), Script(doc)) {
      CheckableRooms(View(s), doc);
      CheckableItems(View(s), doc);
      forall i | 0 <= i < |doc.containers| ensures ContainerAccepted(s, doc, doc.containers[i]) {
        CheckableContainer(s, doc, doc.containers[i]);
      }
      forall k | 0 <= k < |doc.items| ensures ItemAccepted(s, doc, doc.items[k]) {
        CheckableItem(s, doc, k);
      }
    }
  }

  lemma CanonicalTrueKey(doc: Document, i: int)
    requires Ordered(doc.containers).Ok? && CanonicalNames(doc) && 0 <= i < |Script(doc)|
    ensures TrueKey(Script(doc)[i])
  {
    hide Ordered, ScriptOf;
    ScriptLength(doc);
    OrderedSameEntries(doc.containers);
    var ordered := Ordered(doc.containers).value;
    ScriptAt(doc.rooms, ordered, doc.items, i);
    if |doc.rooms| <= i < |doc.rooms| + |ordered| {
      assert ordered[i - |doc.rooms|] in doc.containers;
    } else if i >= |doc.rooms| + |ordered| {
      assert doc.items[i - |doc.rooms| - |ordered|] in doc.items;
    }
  }

  /** An accepted canonical document is a script the store can run. */
  lemma AcceptedRunnable(s: State, doc: Document)
    requires Sound(s) && Accepts(s, doc) && CanonicalNames(doc)
    ensures Runnable(View(s), Script(doc))
  {
    hide Sound, WellFormed, Grounded, ScriptOf, DocView, TrueKey, Clean;
    AcceptedCheckable(s, doc);
    forall i | 0 <= i < |Script(doc)| ensures Clean(Script(doc)[i]) {
      CanonicalTrueKey(doc, i);
      TrueAndWellFormed(Script(doc)[i]);
    }
  }

  lemma ContainerIsAccepted(s: State, doc: Document, c: int)
    requires Sound(s) && Accepts(s, doc) && 0 <= c < |Ordered(doc.containers).value|
    ensures ContainerAccepted(s, doc, Ordered(doc.containers).value[c])
  {
    hide Sound, ContainerAccepted, ItemAccepted;
    OrderedSameEntries(doc.containers);
    var e := Ordered(doc.containers).value[c];
    assert e in doc.containers;
    var i :| 0 <= i < |doc.containers| && doc.containers[i] == e;
  }

  lemma ClosedIsClosedScript(doc: Document)
    requires Ordered(doc.containers).Ok? && Closed(doc)
    ensures ClosedScript(Script(doc))
  {
    hide ScriptOf, ScopeKey, EntryLinks;
    var ordered, script := Ordered(doc.containers).value, Script(doc);
    ScriptLength(doc);
    OrderedSameEntries(doc.containers);
    OrderedParentsFirst(doc.containers);
    forall i | 0 <= i < |script| ensures HangsInside(script[..i], script[i]) {
      ScriptAt(doc.rooms, ordered, doc.items, i);
      if script[i].ContainerEntry? && script[i].container.parent != "" {
        var c := i - |doc.rooms|;
        assert ordered[c] in doc.containers;
        var a :| 0 <= a < |doc.containers| && doc.containers[a] == ordered[c];
        var j := ContainerFoundAt(ordered, doc.containers, ParentKey(ordered[c]));
        assert HangsFrom(ordered, c, j);
        ScriptAt(doc.rooms, ordered, doc.items, j + |doc.rooms|);
        assert script[..i][j + |doc.rooms|] == ContainerEntry(ordered[j]);
      }
    }
  }
}
