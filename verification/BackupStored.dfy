/**
 The form the store keeps names in. An import looks an entry up as the document writes
 it and stores it in the form of the store: container names are trimmed, and an item in
 a room is in no container. Two entries collide when they part in the document and meet
 in the store.
 */
module BackupStored {
  import opened Text
  import opened Inventory
  import opened StoreModel
  import opened StoreInvariant
  import opened BackupDocument
  import opened BackupNames
  import opened BackupImport
  import opened BackupSteps
  import opened BackupOverlay
  import opened BackupCheck

  // ---- Trimming and folding -----------------------------------------------------------

  lemma FoldKeepsSpace(c: char)
    ensures IsSpace(FoldChar(c)) <==> IsSpace(c)
  {
  }

  lemma {:induction false} TrimLeftFolds(name: string)
    ensures TrimLeft(ScopeKey(name)) == ScopeKey(TrimLeft(name))
    decreases |name|
  {
    if name != [] {
      FoldKeepsSpace(name[0]);
      assert ScopeKey(name)[1..] == ScopeKey(name[1..]);
      TrimLeftFolds(name[1..]);
    }
  }

  lemma {:induction false} TrimRightFolds(name: string)
    ensures TrimRight(ScopeKey(name)) == ScopeKey(TrimRight(name))
    decreases |name|
  {
    if name != [] {
      var last := |name| - 1;
      FoldKeepsSpace(name[last]);
      assert ScopeKey(name)[..last] == ScopeKey(name[..last]);
      TrimRightFolds(name[..last]);
    }
  }

  /** Trimming a folded name is folding the trimmed one. */
  lemma TrimFolds(name: string)
    ensures Trim(ScopeKey(name)) == ScopeKey(Trim(name))
  {
    TrimLeftFolds(name);
    TrimRightFolds(TrimLeft(name));
  }

  /** A folded name has white space at an end just when the name has. */
  lemma FoldedTrimmed(name: string)
    ensures Trim(ScopeKey(name)) == ScopeKey(name) <==> Trim(name) == name
  {
    TrimIdentity(name);
    TrimIdentity(ScopeKey(name));
    if name != [] {
      FoldKeepsSpace(name[0]);
      FoldKeepsSpace(name[|name| - 1]);
    }
  }

  // ---- The two keys of an entry ---------------------------------------------------------

  /** The key the store keeps what a document calls `key` under. */
  function StoreKey(key: NameKey): NameKey {
    match key
    case RoomName(_) => key
    case ContainerName(k) => ContainerName(k.(name := Trim(k.name)))
    case ItemName(k) => ItemName(k.(container := if k.kind.RoomKind? then "" else Trim(k.container)))
  }

  /** The key is in the form of the store. */
  predicate Rests(key: NameKey) {
    StoreKey(key) == key
  }

  function StoredPlace(place: DocLocation): DocLocation {
    place.(container := if place.kind.RoomKind? then "" else Trim(place.container))
  }

  /** The entry as the store understands it. */
  function Stored(entry: Entry): Entry {
    match entry
    case RoomEntry(e) => entry
    case ContainerEntry(e) => ContainerEntry(e.(name := Trim(e.name), parent := Trim(e.parent)))
    case ItemEntry(e) => ItemEntry(e.(location := StoredPlace(e.location)))
  }

  function StoredAll(script: seq<Entry>): (r: seq<Entry>)
    ensures |r| == |script| && forall i :: 0 <= i < |r| ==> r[i] == Stored(script[i])
  {
    seq(|script|, i requires 0 <= i < |script| => Stored(script[i]))
  }

  lemma StoreKeyRests(key: NameKey)
    ensures Rests(StoreKey(key))
  {
    match key
    case RoomName(_) =>
    case ContainerName(k) => TrimTwice(k.name);
    case ItemName(k) => TrimTwice(k.container);
  }

  lemma StoredKey(entry: Entry)
    ensures KeyOf(Stored(entry)) == StoreKey(KeyOf(entry))
  {
    match entry
    case RoomEntry(e) =>
    case ContainerEntry(e) => TrimFolds(e.name);
    case ItemEntry(e) =>
      TrimFolds(e.location.container);
      ScopeKeyEmpty("");
  }

  lemma StoredPlaceName(place: DocLocation)
    ensures PlaceName(StoredPlace(place)) == StoreKey(PlaceName(place))
  {
    TrimFolds(place.container);
  }

  lemma StoredParentKey(e: DocContainer)
    ensures ContainerName(ParentKey(e.(name := Trim(e.name), parent := Trim(e.parent)))) == StoreKey(ContainerName(ParentKey(e)))
  {
    TrimFolds(e.parent);
  }

  lemma StoredClean(entry: Entry)
    requires WellFormed(entry)
    ensures Clean(Stored(entry))
  {
    match entry
    case RoomEntry(e) =>
    case ContainerEntry(e) =>
      TrimTwice(e.name);
      TrimTwice(e.description);
    case ItemEntry(e) =>
  }

  lemma StoredPrefix(script: seq<Entry>, k: nat)
    requires k <= |script|
    ensures StoredAll(script)[..k] == StoredAll(script[..k])
  {
  }

  /** Whatever a sound store holds, it holds under a key in its own form. */
  lemma KnownRests(s: State, key: NameKey)
    requires Sound(s) && key in View(s)
    ensures Rests(key)
  {
    hide Sound, Trim, ScopeKey;
    ViewKnowsWorld(s, key);
    match key
    case RoomName(_) =>
    case ContainerName(k) =>
      FoundContainer(s, k);
      RowTrimmed(s, World(s)[key].container.id);
      FoldedTrimmed(World(s)[key].container.name);
    case ItemName(k) =>
      FoundItem(s, k);
      var place := World(s)[key].item.location;
      if place.kind.ContainerKind? {
        RowTrimmed(s, place.id);
        FoldedTrimmed(s.containers[place.id].name);
      }
  }

  lemma RowTrimmed(s: State, id: int)
    requires Sound(s) && id in s.containers
    ensures Trim(s.containers[id].name) == s.containers[id].name != ""
  {
    assert ContainerAtRest(s.containers[id]);
  }

  // ---- Collisions ---------------------------------------------------------------------------

  /** Every key of the view is in the form of the store. */
  ghost predicate Resting(view: NameView) {
    forall key :: key in view ==> Rests(key)
  }

  lemma SoundRests(s: State)
    requires Sound(s)
    ensures Resting(View(s))
  {
    forall key | key in View(s) ensures Rests(key) {
      KnownRests(s, key);
    }
  }

  /**
   The entry is not found under the key the document gives it, but its place in the store
   is taken: by what was there before or by an earlier entry.
   */
  ghost predicate Collides(view: NameView, script: seq<Entry>, i: int)
    requires 0 <= i < |script|
  {
    && KeyOf(script[i]) !in view
    && (StoreKey(KeyOf(script[i])) in view
        || exists j :: 0 <= j < i && StoreKey(KeyOf(script[j])) == StoreKey(KeyOf(script[i])))
  }

  ghost predicate NoneCollides(view: NameView, script: seq<Entry>, n: nat)
    requires n <= |script|
  {
    forall i :: 0 <= i < n ==> !Collides(view, script, i)
  }

  /** Different names of the view and of the entries before `n` stay different in the store. */
  ghost predicate NamesApart(view: NameView, script: seq<Entry>, n: nat)
    requires n <= |script|
  {
    && (forall i, key :: 0 <= i < n && key in view && StoreKey(KeyOf(script[i])) == key ==> KeyOf(script[i]) == key)
    && (forall i, j :: 0 <= i < j < n ==> StoreKey(KeyOf(script[i])) != StoreKey(KeyOf(script[j])))
  }

  lemma ApartFromView(view: NameView, script: seq<Entry>, i: int, key: NameKey)
    requires Resting(view) && 0 <= i < |script| && !Collides(view, script, i)
    requires key in view && StoreKey(KeyOf(script[i])) == key
    ensures KeyOf(script[i]) == key
  {
    hide StoreKey, KeyOf;
    if KeyOf(script[i]) in view {
      assert Rests(KeyOf(script[i]));
    }
  }

  lemma ApartFromEach(view: NameView, script: seq<Entry>, i: int, j: int)
    requires Resting(view) && NamesDistinct(script) && 0 <= i < j < |script|
    requires !Collides(view, script, i) && !Collides(view, script, j)
    ensures StoreKey(KeyOf(script[i])) != StoreKey(KeyOf(script[j]))
  {
    hide StoreKey, KeyOf;
    if StoreKey(KeyOf(script[i])) == StoreKey(KeyOf(script[j])) {
      assert KeyOf(script[j]) in view && Rests(KeyOf(script[j]));
      ApartFromView(view, script, i, KeyOf(script[j]));
    }
  }

  lemma CollisionFree(view: NameView, script: seq<Entry>, n: nat)
    requires Resting(view) && NamesDistinct(script) && n <= |script| && NoneCollides(view, script, n)
    ensures NamesApart(view, script, n)
  {
    hide StoreKey, KeyOf, Collides, Resting, NamesDistinct;
    forall i, key | 0 <= i < n && key in view && StoreKey(KeyOf(script[i])) == key ensures KeyOf(script[i]) == key {
      ApartFromView(view, script, i, key);
    }
    forall i, j | 0 <= i < j < n ensures StoreKey(KeyOf(script[i])) != StoreKey(KeyOf(script[j])) {
      ApartFromEach(view, script, i, j);
    }
  }

  /** A name known to the document is known to the store, in its form. */
  lemma StoredIsThere(view: NameView, script: seq<Entry>, n: nat, key: NameKey)
    requires Resting(view) && n <= |script| && key in view + DocView(script[..n])
    ensures StoreKey(key) in view + DocView(StoredAll(script)[..n])
  {
    hide StoreKey, KeyOf, DocView, Stored;
    if key in view {
      assert Rests(key);
    } else {
      DocViewMentions(script[..n], key);
      var i :| 0 <= i < n && KeyOf(script[..n][i]) == key;
      assert script[..n][i] == script[i];
      StoredKey(script[i]);
      assert KeyOf(StoredAll(script)[..n][i]) == StoreKey(key);
      DocViewMentions(StoredAll(script)[..n], StoreKey(key));
    }
  }

  /** What is found under its own name was there or is an earlier entry. */
  lemma FoundEarlier(view: NameView, script: seq<Entry>, n: nat, key: NameKey) returns (j: int)
    requires n <= |script| && key in view + DocView(script[..n]) && key !in view
    ensures 0 <= j < n && KeyOf(script[j]) == key
  {
    DocViewMentions(script[..n], key);
    j :| 0 <= j < n && KeyOf(script[..n][j]) == key;
  }

  /** A container and the parent its entry names stay two containers in the store. */
  lemma ParentStaysApart(view: NameView, script: seq<Entry>, i: int)
    requires 0 <= i < |script| && script[i].ContainerEntry? && script[i].container.parent != ""
    requires Grounded(view + DocView(script[..i]), script[i])
    requires Resting(view) && NamesApart(view, script, i + 1)
    ensures StoreKey(ContainerName(ParentKey(script[i].container))) != StoreKey(KeyOf(script[i]))
  {
    hide StoreKey, DocView;
    var parent := ContainerName(ParentKey(script[i].container));
    assert parent != KeyOf(script[i]);
    if parent in view {
      assert Rests(parent);
    } else {
      var j := FoundEarlier(view, script, i, parent);
      assert KeyOf(script[j]) == parent;
    }
  }

  lemma StoredGrounded(view: NameView, script: seq<Entry>, i: int)
    requires 0 <= i < |script| && Grounded(view + DocView(script[..i]), script[i])
    requires Resting(view) && NamesApart(view, script, i + 1)
    ensures Grounded(view + DocView(StoredAll(script)[..i]), Stored(script[i]))
  {
    hide DocView, NamesApart, Resting, Trim, ScopeKey;
    match script[i]
    case RoomEntry(e) =>
    case ContainerEntry(e) =>
      StoredIsThere(view, script, i, RoomName(ScopeKey(e.room)));
      if e.parent != "" {
        StoredIsThere(view, script, i, ContainerName(ParentKey(e)));
        ParentStaysApart(view, script, i);
        StoredParentKey(e);
        StoredKey(script[i]);
      } else {
        TrimIdentity("");
      }
    case ItemEntry(e) =>
      StoredIsThere(view, script, i, PlaceName(e.location));
      StoredPlaceName(e.location);
  }

  lemma StoredNamesDistinct(view: NameView, script: seq<Entry>)
    requires NamesApart(view, script, |script|)
    ensures NamesDistinct(StoredAll(script))
  {
    hide StoreKey, KeyOf, Stored;
    forall i, j | 0 <= i < j < |script| ensures KeyOf(StoredAll(script)[i]) != KeyOf(StoredAll(script)[j]) {
      StoredKey(script[i]);
      StoredKey(script[j]);
    }
  }

  lemma CheckablePrefix(view: NameView, script: seq<Entry>, n: nat)
    requires Checkable(view, script) && n <= |script|
    ensures Checkable(view, script[..n])
  {
    hide WellFormed, Grounded;
    forall i | 0 <= i < n ensures Grounded(view + DocView(script[..n][..i]), script[..n][i]) {
      assert script[..n][..i] == script[..i];
    }
  }

  lemma ApartPrefix(view: NameView, script: seq<Entry>, n: nat)
    requires n <= |script| && NamesApart(view, script, n)
    ensures NamesApart(view, script[..n], n)
  {
    hide StoreKey, KeyOf;
  }

  /** As far as no entry collides, an accepted script runs in the form of the store. */
  lemma StoredRunnable(view: NameView, script: seq<Entry>, n: nat)
    requires Checkable(view, script) && Resting(view) && n <= |script| && NoneCollides(view, script, n)
    ensures Runnable(view, StoredAll(script)[..n])
  {
    hide Resting, Clean, Grounded, StoreKey, KeyOf, Stored, WellFormed;
    CollisionFree(view, script, n);
    ApartPrefix(view, script, n);
    StoredPrefix(script, n);
    StoredNamesDistinct(view, script[..n]);
    var stored := StoredAll(script);
    forall i | 0 <= i < n ensures Clean(stored[..n][i]) && Grounded(view + DocView(stored[..n][..i]), stored[..n][i]) {
      StoredClean(script[i]);
      StoredGrounded(view, script, i);
      assert stored[..n][..i] == stored[..i];
    }
  }

  // ---- Documents in the form of the store --------------------------------------------------

  /** Every entry before `n` is looked up under the key it is stored under. */
  ghost predicate AllRest(script: seq<Entry>, n: nat)
    requires n <= |script|
  {
    forall i :: 0 <= i < n ==> Rests(KeyOf(script[i]))
  }

  lemma RestingNoCollision(view: NameView, script: seq<Entry>, n: nat)
    requires NamesDistinct(script) && n <= |script| && AllRest(script, n)
    ensures NoneCollides(view, script, n)
  {
    hide StoreKey, KeyOf;
    forall i | 0 <= i < n ensures !Collides(view, script, i) {
      assert Rests(KeyOf(script[i]));
      assert forall j :: 0 <= j < i ==> Rests(KeyOf(script[j]));
    }
  }

  lemma RestingReference(view: NameView, script: seq<Entry>, n: nat, key: NameKey)
    requires Resting(view) && n <= |script| && AllRest(script, n) && key in view + DocView(script[..n])
    ensures Rests(key)
  {
    hide StoreKey, KeyOf, DocView;
    if key !in view {
      var j := FoundEarlier(view, script, n, key);
    }
  }

  /** An entry whose own name and whose references are in the form of the store is stored as it is. */
  lemma RestingStored(view: NameView, script: seq<Entry>, i: int)
    requires 0 <= i < |script| && Grounded(view + DocView(script[..i]), script[i])
    requires Resting(view) && AllRest(script, i + 1)
    ensures Stored(script[i]) == script[i]
  {
    hide DocView, Resting, Trim, ScopeKey;
    assert Rests(KeyOf(script[i]));
    match script[i]
    case RoomEntry(e) =>
    case ContainerEntry(e) =>
      FoldedTrimmed(e.name);
      if e.parent != "" {
        RestingReference(view, script, i, ContainerName(ParentKey(e)));
        FoldedTrimmed(e.parent);
      } else {
        TrimIdentity("");
      }
    case ItemEntry(e) =>
      FoldedTrimmed(e.location.container);
      ScopeKeyEmpty(e.location.container);
  }

  lemma AllRestStored(view: NameView, script: seq<Entry>)
    requires Checkable(view, script) && Resting(view) && AllRest(script, |script|)
    ensures StoredAll(script) == script
  {
    hide Resting, Stored, StoreKey, KeyOf, Grounded;
    forall i | 0 <= i < |script| ensures Stored(script[i]) == script[i] {
      RestingStored(view, script, i);
    }
  }

  /** The key of an entry rests when the entry is filed under it and its place rests. */
  lemma TrueKeyRests(view: NameView, script: seq<Entry>, i: int)
    requires 0 <= i < |script| && WellFormed(script[i]) && Grounded(view + DocView(script[..i]), script[i])
    requires Resting(view) && forall j :: 0 <= j <= i ==> TrueKey(script[j])
    ensures Rests(KeyOf(script[i]))
  {
    hide DocView, Trim, ScopeKey;
    match script[i]
    case RoomEntry(e) =>
    case ContainerEntry(e) => FoldedTrimmed(e.name);
    case ItemEntry(e) =>
      if e.location.kind.RoomKind? {
        ScopeKeyEmpty(e.location.container);
      } else if PlaceName(e.location) in view {
        assert Rests(PlaceName(e.location));
      } else {
        var j := FoundEarlier(view, script, i, PlaceName(e.location));
        FoldedTrimmed(script[j].container.name);
      }
  }

  lemma RestsTrueKey(entry: Entry)
    requires Rests(KeyOf(entry))
    ensures TrueKey(entry)
  {
    match entry
    case RoomEntry(e) =>
    case ContainerEntry(e) => FoldedTrimmed(e.name);
    case ItemEntry(e) => ScopeKeyEmpty(e.location.container);
  }

  lemma TrueKeysCanonical(doc: Document)
    requires Ordered(doc.containers).Ok? && forall i :: 0 <= i < |Script(doc)| ==> TrueKey(Script(doc)[i])
    ensures CanonicalNames(doc)
  {
    hide Ordered, ScriptOf, Trim;
    ScriptLength(doc);
    OrderedSameEntries(doc.containers);
    var ordered := Ordered(doc.containers).value;
    forall e | e in doc.containers ensures TrueKey(ContainerEntry(e)) {
      assert e in ordered;
      var c :| 0 <= c < |ordered| && ordered[c] == e;
      ScriptAt(doc.rooms, ordered, doc.items, |doc.rooms| + c);
    }
    forall e | e in doc.items ensures TrueKey(ItemEntry(e)) {
      var k :| 0 <= k < |doc.items| && doc.items[k] == e;
      ScriptAt(doc.rooms, ordered, doc.items, |doc.rooms| + |doc.containers| + k);
    }
    assert forall e :: e in doc.containers ==> TrueKey(ContainerEntry(e));
    assert forall e :: e in doc.items ==> TrueKey(ItemEntry(e));
  }

  /** The canonical documents are those whose entries are all found where they are stored. */
  lemma CanonicalRests(s: State, doc: Document)
    requires Sound(s) && Accepts(s, doc)
    ensures AllRest(Script(doc), |Script(doc)|) <==> CanonicalNames(doc)
  {
    hide Sound, RoomsAccepted, ContainerAccepted, ItemAccepted, ItemKeysDistinct;
    hide CanonicalNames, ScriptOf, TrueKey, Rests, KeyOf, Grounded, WellFormed, Resting;
    var script := Script(doc);
    AcceptedCheckable(s, doc);
    SoundRests(s);
    if CanonicalNames(doc) {
      forall i | 0 <= i < |script| ensures TrueKey(script[i]) {
        CanonicalTrueKey(doc, i);
      }
      forall i | 0 <= i < |script| ensures Rests(KeyOf(script[i])) {
        TrueKeyRests(View(s), script, i);
      }
    }
    if AllRest(script, |script|) {
      forall i | 0 <= i < |script| ensures TrueKey(script[i]) {
        assert Rests(KeyOf(script[i]));
        RestsTrueKey(script[i]);
      }
      TrueKeysCanonical(doc);
    }
  }
}
