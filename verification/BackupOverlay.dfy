/**
 A whole import: applying entries one by one lays what the document says over what
 the inventory said before, name by name.
 */
module BackupOverlay {
  import opened Text
  import opened Inventory
  import opened Forest
  import opened StoreModel
  import opened StoreInvariant
  import opened BackupDocument
  import opened BackupNames
  import opened BackupImport
  import opened BackupSteps

  /** Where a run of entries stopped: the store, the fates so far, the error if any. */
  datatype Applied = Applied(state: State, fates: seq<Fate>, error: Option<Error>)

  ghost function ApplyEntries(s: State, entries: seq<Entry>): (r: Applied)
    requires Sound(s)
    ensures Sound(r.state)
    ensures r.error.None? ==> |r.fates| == |entries|
    decreases |entries|
  {
    if entries == [] then Applied(s, [], None)
    else
      EntryStepSound(s, entries[0]);
      var (t, r) := EntryStep(s, entries[0]);
      if r.Err? then Applied(t, [], Some(r.error))
      else
        var rest := ApplyEntries(t, entries[1..]);
        rest.(fates := [r.value] + rest.fates)
  }

  /** What a list of entries says; a later entry for a name overrides an earlier one. */
  function DocView(entries: seq<Entry>): NameView
    decreases |entries|
  {
    if entries == [] then map[]
    else DocView(entries[..|entries| - 1])[KeyOf(entries[|entries| - 1]) := FactsFrom(entries[|entries| - 1])]
  }

  ghost predicate NamesDistinct(entries: seq<Entry>) {
    forall i, j :: 0 <= i < j < |entries| ==> KeyOf(entries[i]) != KeyOf(entries[j])
  }

  lemma DocViewAppend(entries: seq<Entry>, e: Entry)
    ensures DocView(entries + [e]) == DocView(entries)[KeyOf(e) := FactsFrom(e)]
  {
    assert (entries + [e])[..|entries|] == entries;
  }

  lemma {:induction false} DocViewMentions(entries: seq<Entry>, key: NameKey)
    ensures key in DocView(entries) <==> exists i :: 0 <= i < |entries| && KeyOf(entries[i]) == key
    decreases |entries|
  {
    hide KeyOf, FactsFrom;
    if entries != [] {
      var last := |entries| - 1;
      DocViewMentions(entries[..last], key);
      if key in DocView(entries[..last]) {
        var i :| 0 <= i < last && KeyOf(entries[..last][i]) == key;
        assert KeyOf(entries[i]) == key;
      }
      if exists i :: 0 <= i < |entries| && KeyOf(entries[i]) == key {
        var i :| 0 <= i < |entries| && KeyOf(entries[i]) == key;
        assert i < last ==> KeyOf(entries[..last][i]) == key;
      }
    }
  }

  lemma {:induction false} DocViewAt(entries: seq<Entry>, i: int)
    requires NamesDistinct(entries) && 0 <= i < |entries|
    ensures KeyOf(entries[i]) in DocView(entries) && DocView(entries)[KeyOf(entries[i])] == FactsFrom(entries[i])
    decreases |entries|
  {
    var last := |entries| - 1;
    if i < last {
      DocViewAt(entries[..last], i);
      assert entries[..last][i] == entries[i];
    }
  }

  // ---- When every step can be taken -------------------------------------------------

  predicate Clean(entry: Entry) {
    match entry
    case RoomEntry(e) => ValidRoom(RoomTarget(e))
    case ContainerEntry(e) => CleanContainer(e)
    case ItemEntry(e) => CleanItem(e)
  }

  /** The fields of an entry are valid; its names may still have white space around them. */
  predicate WellFormed(entry: Entry) {
    match entry
    case RoomEntry(e) => ValidRoom(RoomTarget(e))
    case ContainerEntry(e) => ValidContainer(ContainerTarget(e, 1, None))
    case ItemEntry(e) => ValidItem(ItemTarget(e, Location(e.location.kind, 1)))
  }

  /** The entry is filed under the key its row gets. */
  predicate TrueKey(entry: Entry) {
    match entry
    case RoomEntry(e) => true
    case ContainerEntry(e) => Trim(e.name) == e.name
    case ItemEntry(e) => e.location.kind.RoomKind? ==> e.location.container == ""
  }

  lemma TrueAndWellFormed(entry: Entry)
    requires WellFormed(entry) && TrueKey(entry)
    ensures Clean(entry)
  {
    if entry.ContainerEntry? {
      TrimTwice(entry.container.description);
    }
  }

  /** The place an item entry names. */
  function PlaceName(place: DocLocation): NameKey {
    if place.kind.RoomKind? then RoomName(ScopeKey(place.room))
    else ContainerName(ContainerKey(ScopeKey(place.room), ScopeKey(place.container)))
  }

  /** Every name an entry refers to is there before the entry is applied. */
  ghost predicate Grounded(view: NameView, entry: Entry) {
    match entry
    case RoomEntry(e) => true
    case ContainerEntry(e) =>
      && RoomName(ScopeKey(e.room)) in view
      && (e.parent != "" ==> ContainerName(ParentKey(e)) in view && ScopeKey(e.parent) != ScopeKey(e.name))
    case ItemEntry(e) => PlaceName(e.location) in view
  }

  /** The container entry hangs from an entry of the list, or from nothing. */
  ghost predicate HangsInside(before: seq<Entry>, entry: Entry) {
    entry.ContainerEntry? && entry.container.parent != "" ==>
      exists j :: 0 <= j < |before| && before[j].ContainerEntry? && EntryKey(before[j].container) == ParentKey(entry.container)
  }

  /** A script can run on an inventory that says `view`: nothing it needs is missing. */
  ghost predicate Runnable(view: NameView, script: seq<Entry>) {
    && NamesDistinct(script)
    && (forall i :: 0 <= i < |script| ==> Clean(script[i]))
    && (forall i :: 0 <= i < |script| ==> Grounded(view + DocView(script[..i]), script[i]))
  }

  /** A script can be checked against `view`: its entries are valid and name what is there by then. */
  ghost predicate Checkable(view: NameView, script: seq<Entry>) {
    && NamesDistinct(script)
    && (forall i :: 0 <= i < |script| ==> WellFormed(script[i]))
    && (forall i :: 0 <= i < |script| ==> Grounded(view + DocView(script[..i]), script[i]))
  }

  /** No entry hangs from a container the script does not itself declare first. */
  ghost predicate ClosedScript(script: seq<Entry>) {
    forall i :: 0 <= i < |script| ==> HangsInside(script[..i], script[i])
  }

  ghost predicate StepReady(s: State, entry: Entry)
    requires Sound(s)
  {
    && Clean(entry) && Grounded(View(s), entry)
    && (entry.ContainerEntry? ==> NamesKnown(s, entry.container) && !Circular(s, entry.container))
  }

  lemma GroundedNamesKnown(s: State, e: DocContainer)
    requires Sound(s) && Grounded(View(s), ContainerEntry(e))
    ensures NamesKnown(s, e)
  {
    ViewKnowsWorld(s, RoomName(ScopeKey(e.room)));
    ViewKnowsWorld(s, ContainerName(ParentKey(e)));
  }

  lemma GroundedPlaceNamed(s: State, e: DocItem)
    requires Sound(s) && Grounded(View(s), ItemEntry(e)) && !e.location.kind.OtherKind?
    ensures PlaceNamed(s, e.location)
  {
    ViewKnowsWorld(s, PlaceName(e.location));
  }

  lemma StepPuts(s: State, entry: Entry)
    requires Sound(s) && StepReady(s, entry)
    ensures EntryStep(s, entry).1.Ok?
    ensures Puts(s, EntryStep(s, entry).0, EntryStep(s, entry).1.value, KeyOf(entry), FactsFrom(entry), Orderly(entry))
  {
    match entry
    case RoomEntry(e) => RoomStepPuts(s, e);
    case ContainerEntry(e) => ContainerStepPuts(s, e);
    case ItemEntry(e) =>
      GroundedPlaceNamed(s, e);
      ItemStepPuts(s, e);
  }

  // ---- No circles ---------------------------------------------------------------------

  /** The names of `done` hang from names of `done`. */
  ghost predicate ClosedNames(view: NameView, done: set<ContainerKey>) {
    forall k :: k in done ==>
      && ContainerName(k) in view && view[ContainerName(k)].ContainerFacts?
      && (view[ContainerName(k)].parent.Some? ==> ContainerKey(k.room, view[ContainerName(k)].parent.value) in done)
  }

  ghost function ContainersNamed(s: State, done: set<ContainerKey>): set<int> {
    set id | id in s.containers && ContainerKey(RoomKey(s.rooms, s.containers[id].roomId), ScopeKey(s.containers[id].name)) in done
  }

  lemma NamedStayInside(s: State, done: set<ContainerKey>, id: int)
    requires Sound(s) && ClosedNames(View(s), done)
    requires id in ContainersNamed(s, done) && id in ParentLinks(s.containers)
    ensures ParentLinks(s.containers)[id] in ContainersNamed(s, done)
  {
    var c := s.containers[id];
    var k := ContainerKey(RoomKey(s.rooms, c.roomId), ScopeKey(c.name));
    assert HasRow(s, ContainerRow(c)) && KeyOfRow(s, ContainerRow(c)) == ContainerName(k);
    ViewKnowsWorld(s, ContainerName(k));
    assert View(s)[ContainerName(k)] == FactsOf(s.containers, ContainerRow(c));
  }

  /**
   A container whose parent is already where the document wants it never hangs
   below itself: the whole chain of the parent consists of finished entries.
   */
  lemma NotCircular(s: State, e: DocContainer, done: set<ContainerKey>)
    requires Sound(s) && NamesKnown(s, e) && ClosedNames(View(s), done)
    requires e.parent != "" ==> ParentKey(e) in done
    requires EntryKey(e) !in done
    ensures !Circular(s, e)
  {
    if e.parent != "" && ContainerName(EntryKey(e)) in World(s) {
      var up, inside := ParentLinks(s.containers), ContainersNamed(s, done);
      FoundContainer(s, ParentKey(e));
      FoundContainer(s, EntryKey(e));
      var parentId, id := ParentIdOf(s, e).value, World(s)[ContainerName(EntryKey(e))].container.id;
      forall x | x in inside && x in up ensures up[x] in inside {
        NamedStayInside(s, done, x);
      }
      ChainStaysInside(up, inside, parentId);
      MeetsIsReaches(s.containers, parentId, id);
    }
  }

  // ---- The run ----------------------------------------------------------------------------

  ghost predicate Overlaid(view: NameView, script: seq<Entry>, done: nat, s: State)
    requires Sound(s) && done <= |script|
  {
    View(s) == view + DocView(script[..done])
  }

  ghost function DoneContainers(script: seq<Entry>, done: nat): set<ContainerKey>
    requires done <= |script|
  {
    set i | 0 <= i < done && script[i].ContainerEntry? :: EntryKey(script[i].container)
  }

  lemma DoneIsClosed(view: NameView, script: seq<Entry>, done: nat)
    requires NamesDistinct(script) && ClosedScript(script) && done <= |script|
    ensures ClosedNames(view + DocView(script[..done]), DoneContainers(script, done))
  {
    forall i | 0 <= i < done && script[i].ContainerEntry?
      ensures var k := EntryKey(script[i].container);
        && ContainerName(k) in DocView(script[..done])
        && DocView(script[..done])[ContainerName(k)] == FactsFrom(script[i])
        && (script[i].container.parent != "" ==> ParentKey(script[i].container) in DoneContainers(script, done))
    {
      DocViewAt(script[..done], i);
      if script[i].container.parent != "" {
        assert HangsInside(script[..i], script[i]);
        var j :| 0 <= j < i && script[..i][j].ContainerEntry? && EntryKey(script[..i][j].container) == ParentKey(script[i].container);
        assert script[j].ContainerEntry?;
      }
    }
  }

  lemma NextReady(view: NameView, script: seq<Entry>, done: nat, s: State)
    requires Sound(s) && done < |script| && Overlaid(view, script, done, s)
    requires Runnable(view, script) && ClosedScript(script)
    ensures StepReady(s, script[done])
  {
    hide Sound, View, Circular, NamesKnown, Clean, ClosedNames, DocView, FactsFrom, ScopeKey;
    var entry := script[done];
    if entry.ContainerEntry? {
      var e := entry.container;
      GroundedNamesKnown(s, e);
      DoneIsClosed(view, script, done);
      assert HangsInside(script[..done], entry);
      if e.parent != "" {
        var j :| 0 <= j < done && script[..done][j].ContainerEntry? && EntryKey(script[..done][j].container) == ParentKey(e);
        assert script[j].ContainerEntry?;
      }
      forall i | 0 <= i < done && script[i].ContainerEntry? ensures EntryKey(script[i].container) != EntryKey(e) {
        assert KeyOf(script[i]) != KeyOf(entry);
      }
      NotCircular(s, e, DoneContainers(script, done));
    }
  }

  /** Rows whose names the script does not mention are the same rows. */
  ghost predicate UnmentionedKept(s: State, t: State, script: seq<Entry>) {
    forall row :: HasRow(s, row) && KeyOfRow(s, row) !in DocView(script) ==> HasRow(t, row) && KeyOfRow(t, row) == KeyOfRow(s, row)
  }

  lemma OverlayGrows(view: NameView, script: seq<Entry>, done: nat)
    requires done < |script| && NamesDistinct(script)
    ensures var key, facts := KeyOf(script[done]), FactsFrom(script[done]);
      && (view + DocView(script[..done]))[key := facts] == view + DocView(script[..done + 1])
      && EntryFate(view + DocView(script[..done]), script[done]) == EntryFate(view, script[done])
  {
    var entry := script[done];
    assert script[..done] + [entry] == script[..done + 1];
    DocViewAppend(script[..done], entry);
    DocViewMentions(script[..done], KeyOf(entry));
    assert KeyOf(entry) !in DocView(script[..done]);
  }

  lemma StepOverlays(view: NameView, script: seq<Entry>, done: nat, s: State)
    requires Sound(s) && done < |script| && Overlaid(view, script, done, s)
    requires NamesDistinct(script) && StepReady(s, script[done])
    ensures var (t, r) := EntryStep(s, script[done]);
      && r.Ok? && Sound(t) && Overlaid(view, script, done + 1, t)
      && r.value == EntryFate(view, script[done])
      && OthersKept(s, t, KeyOf(script[done]))
  {
    StepPuts(s, script[done]);
    OverlayGrows(view, script, done);
  }

  lemma DropOne(script: seq<Entry>, done: nat)
    requires done < |script|
    ensures script[done..][0] == script[done] && script[done..][1..] == script[done + 1..]
  {
  }

  lemma KeptOnwards(s: State, t: State, u: State, script: seq<Entry>, key: NameKey)
    requires OthersKept(s, t, key) && key in DocView(script) && UnmentionedKept(t, u, script)
    ensures UnmentionedKept(s, u, script)
  {
    forall row | HasRow(s, row) && KeyOfRow(s, row) !in DocView(script)
      ensures HasRow(u, row) && KeyOfRow(u, row) == KeyOfRow(s, row)
    {
      assert HasRow(t, row);
    }
  }

  lemma ApplyOneMore(s: State, script: seq<Entry>, done: nat)
    requires Sound(s) && done < |script| && EntryStep(s, script[done]).1.Ok?
    ensures var (t, r) := EntryStep(s, script[done]);
      && Sound(t)
      && var rest := ApplyEntries(t, script[done + 1..]);
      ApplyEntries(s, script[done..]) == rest.(fates := [r.value] + rest.fates)
  {
    EntryStepSound(s, script[done]);
    DropOne(script, done);
  }

  /** The fates, one by one, read off what the inventory said at the start. */
  ghost predicate FatesFrom(view: NameView, script: seq<Entry>, done: nat, fates: seq<Fate>) {
    && done + |fates| <= |script|
    && forall i :: done <= i < done + |fates| ==> fates[i - done] == EntryFate(view, script[i])
  }

  lemma FatesGrow(view: NameView, script: seq<Entry>, done: nat, fate: Fate, fates: seq<Fate>)
    requires done < |script| && FatesFrom(view, script, done + 1, fates)
    requires fate == EntryFate(view, script[done])
    ensures FatesFrom(view, script, done, [fate] + fates)
  {
    hide EntryFate;
    var all := [fate] + fates;
    forall i | done <= i < done + |all| ensures all[i - done] == EntryFate(view, script[i]) {
      if i > done {
        assert all[i - done] == fates[i - (done + 1)];
      }
    }
  }

  lemma WholeScript(view: NameView, script: seq<Entry>)
    ensures view + DocView(script[..0]) == view
    ensures script[0..] == script && script[..|script|] == script
  {
  }

  // ---- Doing it again -------------------------------------------------------------------

  predicate AllUnchanged(fates: seq<Fate>) {
    forall i :: 0 <= i < |fates| ==> fates[i].Unchanged?
  }

  lemma AllUnchangedTail(first: Fate, rest: seq<Fate>)
    requires AllUnchanged([first] + rest)
    ensures first.Unchanged? && AllUnchanged(rest)
  {
    assert ([first] + rest)[0] == first;
    assert forall i :: 0 <= i < |rest| ==> ([first] + rest)[i + 1] == rest[i];
  }

  lemma {:induction false} UnchangedWritesNothing(s: State, script: seq<Entry>)
    requires Sound(s) && AllUnchanged(ApplyEntries(s, script).fates)
    ensures ApplyEntries(s, script).state == s
    decreases |script|
  {
    hide Sound, EntryStep;
    if script != [] {
      var (t, r) := EntryStep(s, script[0]);
      EntryStepSound(s, script[0]);
      if r.Ok? {
        AllUnchangedTail(r.value, ApplyEntries(t, script[1..]).fates);
        UnchangedStep(s, script[0]);
        UnchangedWritesNothing(t, script[1..]);
      } else {
        FailedStep(s, script[0]);
      }
    }
  }

  /** An entry that fails leaves the store as it was. */
  lemma FailedStep(s: State, entry: Entry)
    requires Sound(s) && EntryStep(s, entry).1.Err?
    ensures EntryStep(s, entry).0 == s
  {
    hide Sound, Resolve, RoomTarget, ContainerTarget, ItemTarget, NormalRoom, NormalContainer, NormalItem, StoredItem;
    hide RoomNamesUnique, ContainerNamesUnique, ItemNamesUnique, ValidRoom, ValidContainer, ValidItem, WalkMeets, ParentProblem;
  }

  lemma UnchangedStep(s: State, entry: Entry)
    requires Sound(s) && EntryStep(s, entry).1 == Ok(Unchanged)
    ensures EntryStep(s, entry).0 == s
  {
    hide Sound, Resolve, RoomTarget, ContainerTarget, ItemTarget;
    hide CreateRoom, UpdateRoom, CreateContainer, UpdateContainer, CreateItem, UpdateItem;
  }

  /** More names known can only help a script run. */
  lemma RunnableWider(view: NameView, wider: NameView, script: seq<Entry>)
    requires Runnable(view, script) && view.Keys <= wider.Keys
    ensures Runnable(wider, script)
  {
    forall i | 0 <= i < |script| ensures Grounded(wider + DocView(script[..i]), script[i]) {
      assert (view + DocView(script[..i])).Keys <= (wider + DocView(script[..i])).Keys;
      assert Grounded(view + DocView(script[..i]), script[i]);
    }
  }

  /** Every entry lists its labels in stored order. */
  predicate AllOrderly(script: seq<Entry>) {
    forall i :: 0 <= i < |script| ==> Orderly(script[i])
  }

  lemma SecondFates(view: NameView, script: seq<Entry>, fates: seq<Fate>)
    requires NamesDistinct(script) && FatesFrom(view + DocView(script), script, 0, fates) && |fates| == |script|
    ensures AllUnchanged(fates) <==> AllOrderly(script)
  {
    forall i | 0 <= i < |script| ensures fates[i].Unchanged? <==> Orderly(script[i]) {
      DocViewAt(script, i);
      assert fates[i - 0] == EntryFate(view + DocView(script), script[i]);
    }
  }

  // ---- One event for every write ---------------------------------------------------------

  /** How many entries were created or updated. */
  function Written(fates: seq<Fate>): nat {
    if fates == [] then 0 else (if fates[0].Unchanged? then 0 else 1) + Written(fates[1..])
  }

  lemma {:induction false} SomeWritten(fates: seq<Fate>)
    requires !AllUnchanged(fates)
    ensures Written(fates) > 0
    decreases |fates|
  {
    if fates[0].Unchanged? {
      var i :| 0 <= i < |fates| && !fates[i].Unchanged?;
      assert fates[1..][i - 1] == fates[i];
      SomeWritten(fates[1..]);
    }
  }

  ghost predicate OneEvent(s: State, stepped: (State, Outcome<Fate>)) {
    |stepped.0.log| == |s.log| + if stepped.1.Ok? && !stepped.1.value.Unchanged? then 1 else 0
  }

  lemma RoomStepEvents(s: State, e: DocRoom)
    requires Sound(s)
    ensures OneEvent(s, RoomStep(s, e))
  {
    hide Sound, RoomTarget, NormalRoom, RoomNamesUnique, ValidRoom;
  }

  lemma ContainerStepEvents(s: State, e: DocContainer)
    requires Sound(s)
    ensures OneEvent(s, ContainerStep(s, e))
  {
    hide Sound, ContainerTarget, NormalContainer, WalkMeets, ParentProblem, ContainerNamesUnique, ValidContainer;
  }

  lemma ItemStepEvents(s: State, e: DocItem)
    requires Sound(s)
    ensures OneEvent(s, ItemStep(s, e))
  {
    hide Sound, Resolve, ItemTarget, NormalItem, StoredItem, LocationExists, ItemNamesUnique, ValidItem;
  }

  lemma StepEvents(s: State, entry: Entry)
    requires Sound(s)
    ensures OneEvent(s, EntryStep(s, entry))
  {
    match entry
    case RoomEntry(e) => RoomStepEvents(s, e);
    case ContainerEntry(e) => ContainerStepEvents(s, e);
    case ItemEntry(e) => ItemStepEvents(s, e);
  }

  /** An import leaves one event for each entry it created or updated, even when it fails. */
  lemma {:induction false} EventsCounted(s: State, script: seq<Entry>)
    requires Sound(s)
    ensures var r := ApplyEntries(s, script); |r.state.log| == |s.log| + Written(r.fates)
    decreases |script|
  {
    hide Sound, EntryStep;
    if script != [] {
      var (t, r) := EntryStep(s, script[0]);
      EntryStepSound(s, script[0]);
      StepEvents(s, script[0]);
      if r.Ok? {
        EventsCounted(t, script[1..]);
        var rest := ApplyEntries(t, script[1..]).fates;
        assert ([r.value] + rest)[1..] == rest;
      }
    }
  }

  lemma DocViewPrefix(script: seq<Entry>, k: nat)
    requires k <= |script|
    ensures DocView(script[..k]) + DocView(script) == DocView(script)
  {
    forall key | key in DocView(script[..k]) ensures key in DocView(script) {
      DocViewMentions(script[..k], key);
      var i :| 0 <= i < k && KeyOf(script[..k][i]) == key;
      assert KeyOf(script[i]) == key;
      DocViewMentions(script, key);
    }
  }

  lemma OverlayAssociates(a: NameView, b: NameView, c: NameView)
    ensures (a + b) + c == a + (b + c)
  {
  }

  lemma PrefixAgrees(script: seq<Entry>, k: nat, key: NameKey)
    requires NamesDistinct(script) && k <= |script| && key in DocView(script[..k])
    ensures key in DocView(script) && DocView(script)[key] == DocView(script[..k])[key]
  {
    DocViewMentions(script[..k], key);
    var i :| 0 <= i < k && KeyOf(script[..k][i]) == key;
    DocViewAt(script[..k], i);
    DocViewAt(script, i);
  }

  /** Laying a script over one of its prefixes leaves the script. */
  lemma SaidAfter(view: NameView, script: seq<Entry>, k: nat)
    requires k <= |script|
    ensures (view + DocView(script[..k])) + DocView(script) == view + DocView(script)
  {
    DocViewPrefix(script, k);
    OverlayAssociates(view, DocView(script[..k]), DocView(script));
  }

  /** Laying a prefix over a script that said it changes nothing. */
  lemma SaidBefore(view: NameView, script: seq<Entry>, k: nat)
    requires NamesDistinct(script) && k <= |script|
    ensures (view + DocView(script)) + DocView(script[..k]) == view + DocView(script)
  {
    hide DocView, NamesDistinct;
    forall key | key in DocView(script[..k])
      ensures key in DocView(script) && DocView(script)[key] == DocView(script[..k])[key]
    {
      PrefixAgrees(script, k, key);
    }
  }
}
