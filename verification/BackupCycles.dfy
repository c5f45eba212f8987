/**
 Documents that name parents they do not declare. The checks of the import accept
 them, and applying one can stop half-way: this says exactly when it does not.
 */
module BackupCycles {
  import opened Inventory
  import opened Forest
  import opened StoreModel
  import opened StoreInvariant
  import opened BackupDocument
  import opened BackupNames
  import opened BackupImport
  import opened BackupSteps
  import opened BackupOverlay
  import opened BackupCheck

  // ---- Trees of names -----------------------------------------------------------------

  /** `key` is a container that hangs from another, and this is the other. */
  predicate HangsByName(view: NameView, key: NameKey, parent: NameKey) {
    && key in view && key.ContainerName? && view[key].ContainerFacts? && view[key].parent.Some?
    && parent == ContainerName(ContainerKey(key.key.room, view[key].parent.value))
  }

  ghost predicate NamesRanked(view: NameView, rank: map<NameKey, nat>) {
    forall key, parent :: HangsByName(view, key, parent) ==> key in rank && parent in rank && rank[parent] < rank[key]
  }

  /** No container of the view is, by name, its own ancestor. */
  ghost predicate NamesAcyclic(view: NameView) {
    exists rank :: NamesRanked(view, rank)
  }

  lemma StoredHangsByName(s: State, id: int)
    requires Sound(s) && id in ParentLinks(s.containers)
    ensures var parent := ParentLinks(s.containers)[id];
      parent in s.containers && HangsByName(View(s), KeyOfContainer(s.rooms, s.containers[id]), KeyOfContainer(s.rooms, s.containers[parent]))
  {
    var row := ContainerRow(s.containers[id]);
    assert HasRow(s, row);
    ViewKnowsWorld(s, KeyOfRow(s, row));
    assert World(s)[KeyOfRow(s, row)] == row;
    assert s.containers[ParentLinks(s.containers)[id]].roomId == s.containers[id].roomId;
  }

  lemma HangsByNameStored(s: State, key: NameKey, parent: NameKey) returns (id: int)
    requires Sound(s) && HangsByName(View(s), key, parent)
    ensures id in ParentLinks(s.containers) && ParentLinks(s.containers)[id] in s.containers
    ensures World(s)[key] == ContainerRow(s.containers[id])
    ensures parent in World(s) && World(s)[parent] == ContainerRow(s.containers[ParentLinks(s.containers)[id]])
  {
    ViewKnowsWorld(s, key);
    FoundContainer(s, key.key);
    id := World(s)[key].container.id;
    var p := s.containers[id].parent.value;
    assert s.containers[p].roomId == s.containers[id].roomId;
    assert HasRow(s, ContainerRow(s.containers[p])) && KeyOfContainer(s.rooms, s.containers[p]) == parent;
  }

  ghost function RowHeight(s: State, row: Row): nat
    requires IsForest(s.containers)
  {
    if row.ContainerRow? then Height(ParentLinks(s.containers), row.container.id) else 0
  }

  lemma SoundNamesAcyclic(s: State)
    requires Sound(s)
    ensures NamesAcyclic(View(s))
  {
    var rank := map key | key in World(s) :: RowHeight(s, World(s)[key]);
    forall key, parent | HangsByName(View(s), key, parent)
      ensures key in rank && parent in rank && rank[parent] < rank[key]
    {
      ViewKnowsWorld(s, key);
      var id := HangsByNameStored(s, key, parent);
      RowIds(s, id);
    }
    assert NamesRanked(View(s), rank);
  }

  lemma RowIds(s: State, id: int)
    requires Sound(s) && id in ParentLinks(s.containers)
    ensures s.containers[id].id == id
    ensures var p := ParentLinks(s.containers)[id]; p in s.containers && s.containers[p].id == p
  {
  }

  lemma {:induction false} NameRankAlong(s: State, next: NameView, rank: map<NameKey, nat>, id: int, x: int)
    requires Sound(s) && id in s.containers && x in s.containers
    requires Reaches(ParentLinks(s.containers), x, id)
    requires NamesRanked(next, rank)
    requires forall key :: key in View(s) && key != KeyOfContainer(s.rooms, s.containers[id]) ==> key in next && next[key] == View(s)[key]
    requires KeyOfContainer(s.rooms, s.containers[x]) in rank
    ensures KeyOfContainer(s.rooms, s.containers[id]) in rank
    ensures rank[KeyOfContainer(s.rooms, s.containers[id])] <= rank[KeyOfContainer(s.rooms, s.containers[x])]
    decreases Height(ParentLinks(s.containers), x)
  {
    if x != id {
      var up := ParentLinks(s.containers);
      StoredHangsByName(s, x);
      ContainerKeyApart(s, x, id);
      assert HangsByName(next, KeyOfContainer(s.rooms, s.containers[x]), KeyOfContainer(s.rooms, s.containers[up[x]]));
      NameRankAlong(s, next, rank, id, up[x]);
    }
  }

  /** Hanging a container below itself would close a circle of names. */
  lemma CircularNames(s: State, e: DocContainer)
    requires Sound(s) && NamesKnown(s, e) && Circular(s, e)
    ensures !NamesAcyclic(View(s)[KeyOf(ContainerEntry(e)) := FactsFrom(ContainerEntry(e))])
  {
    var next := View(s)[KeyOf(ContainerEntry(e)) := FactsFrom(ContainerEntry(e))];
    FoundContainer(s, EntryKey(e));
    FoundContainer(s, ParentKey(e));
    var id, parentId := World(s)[ContainerName(EntryKey(e))].container.id, ParentIdOf(s, e).value;
    MeetsIsReaches(s.containers, parentId, id);
    var key, parent := ContainerName(EntryKey(e)), ContainerName(ParentKey(e));
    assert KeyOfContainer(s.rooms, s.containers[id]) == key && KeyOfContainer(s.rooms, s.containers[parentId]) == parent;
    assert HangsByName(next, key, parent);
    forall rank | NamesRanked(next, rank) ensures false {
      NameRankAlong(s, next, rank, id, parentId);
    }
  }

  // ---- Exactly when an import goes through ------------------------------------------------

  lemma StepExact(s: State, entry: Entry)
    requires Sound(s) && Clean(entry) && Grounded(View(s), entry)
    ensures EntryStep(s, entry).1.Ok? <==> NamesAcyclic(View(s)[KeyOf(entry) := FactsFrom(entry)])
    ensures EntryStep(s, entry).1.Ok? ==> StepReady(s, entry)
    ensures EntryStep(s, entry).1.Err? ==> EntryStep(s, entry) == (s, Err(Cycle))
  {
    if entry.ContainerEntry? {
      GroundedNamesKnown(s, entry.container);
    }
    if entry.ContainerEntry? && Circular(s, entry.container) {
      CircularFails(s, entry.container);
      CircularNames(s, entry.container);
    } else {
      StepPuts(s, entry);
      SoundNamesAcyclic(EntryStep(s, entry).0);
    }
  }

  /** After every prefix of the script, the names hang together without a circle. */
  ghost predicate NeverCircular(view: NameView, script: seq<Entry>, done: nat) {
    forall k :: done < k <= |script| ==> NamesAcyclic(view + DocView(script[..k]))
  }

  /**
   How far a run on an inventory that says `view` gets: up to the first entry after
   which names would hang in a circle. So far it lays the script over the inventory and
   leaves what the script does not mention alone.
   */
  ghost predicate RunsAsFar(view: NameView, script: seq<Entry>, done: nat, s: State, r: Applied)
    requires Sound(s) && Sound(r.state) && done + |r.fates| <= |script|
  {
    var n := done + |r.fates|;
    && Overlaid(view, script, n, r.state)
    && UnmentionedKept(s, r.state, script[..n])
    && FatesFrom(view, script, done, r.fates)
    && (forall k :: done < k <= n ==> NamesAcyclic(view + DocView(script[..k])))
    && (n == |script| <==> r.error.None?)
    && (n < |script| ==> r.error == Some(Cycle) && !NamesAcyclic(view + DocView(script[..n + 1])))
  }

  lemma NothingKept(s: State, script: seq<Entry>)
    ensures UnmentionedKept(s, s, script)
  {
  }

  lemma StepKept(s: State, t: State, u: State, script: seq<Entry>, done: nat, n: nat)
    requires done < n <= |script| && OthersKept(s, t, KeyOf(script[done])) && UnmentionedKept(t, u, script[..n])
    ensures UnmentionedKept(s, u, script[..n])
  {
    hide OthersKept, UnmentionedKept, DocView, KeyOf;
    assert script[..n][done] == script[done];
    DocViewMentions(script[..n], KeyOf(script[done]));
    KeptOnwards(s, t, u, script[..n], KeyOf(script[done]));
  }

  lemma OneFurther(view: NameView, script: seq<Entry>, done: nat, s: State, t: State, fate: Fate, r: Applied)
    requires Sound(s) && Sound(t) && Sound(r.state) && done + 1 + |r.fates| <= |script|
    requires RunsAsFar(view, script, done + 1, t, r)
    requires OthersKept(s, t, KeyOf(script[done])) && fate == EntryFate(view, script[done])
    requires NamesAcyclic(view + DocView(script[..done + 1]))
    ensures RunsAsFar(view, script, done, s, r.(fates := [fate] + r.fates))
  {
    hide Sound, View, OthersKept, UnmentionedKept, NamesAcyclic, FatesFrom, DocView, EntryFate, KeyOf;
    FatesGrow(view, script, done, fate, r.fates);
    StepKept(s, t, r.state, script, done, done + 1 + |r.fates|);
    assert done + |[fate] + r.fates| == done + 1 + |r.fates|;
  }

  lemma {:induction false} RunExact(view: NameView, script: seq<Entry>, done: nat, s: State)
    requires Sound(s) && done <= |script| && Overlaid(view, script, done, s)
    requires Runnable(view, script)
    ensures var r := ApplyEntries(s, script[done..]);
      done + |r.fates| <= |script| && RunsAsFar(view, script, done, s, r)
    decreases |script| - done
  {
    hide RunsAsFar, Clean, Grounded, EntryStep, OthersKept, Sound;
    if done < |script| {
      var entry := script[done];
      OverlayGrows(view, script, done);
      StepExact(s, entry);
      var (t, r) := EntryStep(s, entry);
      if r.Ok? {
        StepOverlays(view, script, done, s);
        ApplyOneMore(s, script, done);
        RunExact(view, script, done + 1, t);
        SoundNamesAcyclic(t);
        OneFurther(view, script, done, s, t, r.value, ApplyEntries(t, script[done + 1..]));
      } else {
        DropOne(script, done);
        StopsHere(view, script, done, s);
      }
    } else {
      EndsHere(view, script, s);
    }
  }

  lemma StopsHere(view: NameView, script: seq<Entry>, done: nat, s: State)
    requires Sound(s) && done < |script| && Overlaid(view, script, done, s)
    requires !NamesAcyclic(view + DocView(script[..done + 1]))
    ensures RunsAsFar(view, script, done, s, Applied(s, [], Some(Cycle)))
  {
    hide Sound, NamesAcyclic;
    NothingKept(s, script[..done]);
  }

  lemma EndsHere(view: NameView, script: seq<Entry>, s: State)
    requires Sound(s) && Overlaid(view, script, |script|, s)
    ensures RunsAsFar(view, script, |script|, s, Applied(s, [], None))
  {
    hide Sound;
    NothingKept(s, script[..|script|]);
  }

  /**
   The import is an overlay, also where it stops: every name stands for what the entries
   applied so far say, or else for what it stood for before; rows they do not mention are
   untouched. It goes through exactly when its names never hang in a circle.
   */
  lemma ImportOverlays(s: State, script: seq<Entry>)
    requires Sound(s) && Runnable(View(s), script)
    ensures var r := ApplyEntries(s, script);
      && |r.fates| <= |script| && RunsAsFar(View(s), script, 0, s, r)
      && (r.error.None? <==> NeverCircular(View(s), script, 0))
  {
    hide NamesAcyclic;
    WholeScript(View(s), script);
    RunExact(View(s), script, 0, s);
  }

  lemma {:induction false} ClosedRuns(view: NameView, script: seq<Entry>, done: nat, s: State)
    requires Sound(s) && done <= |script| && Overlaid(view, script, done, s)
    requires Runnable(view, script) && ClosedScript(script)
    ensures ApplyEntries(s, script[done..]).error.None?
    decreases |script| - done
  {
    hide Sound, EntryStep, Runnable, ClosedScript, StepReady, OthersKept;
    if done < |script| {
      NextReady(view, script, done, s);
      RunnableDistinct(view, script);
      StepOverlays(view, script, done, s);
      ApplyOneMore(s, script, done);
      ClosedRuns(view, script, done + 1, EntryStep(s, script[done]).0);
    }
  }

  lemma RunnableDistinct(view: NameView, script: seq<Entry>)
    requires Runnable(view, script)
    ensures NamesDistinct(script)
  {
  }

  /** A script that declares every parent it names never closes a circle. */
  lemma ClosedNeverCircular(s: State, script: seq<Entry>)
    requires Sound(s) && Runnable(View(s), script) && ClosedScript(script)
    ensures NeverCircular(View(s), script, 0)
  {
    hide NeverCircular;
    WholeScript(View(s), script);
    ClosedRuns(View(s), script, 0, s);
    ImportOverlays(s, script);
  }

  /**
   An accepted canonical document goes through exactly when the names it would
   leave behind hang together without a circle after each of its entries, in the
   order they are applied; it fails with ErrCycle otherwise.
   */
  lemma ImportExact(s: State, doc: Document)
    requires Sound(s) && Accepts(s, doc) && CanonicalNames(doc)
    ensures var r := ApplyEntries(s, Script(doc));
      && |r.fates| <= |Script(doc)| && RunsAsFar(View(s), Script(doc), 0, s, r)
      && (r.error.None? <==> NeverCircular(View(s), Script(doc), 0))
      && (r.error.Some? ==> r.error.value == Cycle)
  {
    AcceptedRunnable(s, doc);
    ImportOverlays(s, Script(doc));
  }

  // ---- Doing it again -----------------------------------------------------------------------

  /**
   Running a script again that went through: the second run changes no meaning, and it
   reports everything unchanged and writes nothing exactly when all labels are listed in
   stored order.
   */
  lemma SecondImportExact(s: State, script: seq<Entry>)
    requires Sound(s) && Runnable(View(s), script) && ApplyEntries(s, script).error.None?
    ensures var t := ApplyEntries(s, script).state;
      var again := ApplyEntries(t, script);
      && again.error.None? && View(again.state) == View(t)
      && (AllUnchanged(again.fates) <==> AllOrderly(script))
      && (again.state == t <==> AllOrderly(script))
  {
    hide Runnable, NamesAcyclic, Sound;
    ImportOverlays(s, script);
    var t := ApplyEntries(s, script).state;
    WholeScript(View(s), script);
    RunnableWider(View(s), View(t), script);
    ImportOverlays(t, script);
    SoundNamesAcyclic(t);
    RunnableDistinct(View(s), script);
    forall k | 0 < k <= |script| ensures NamesAcyclic(View(t) + DocView(script[..k])) {
      SaidBefore(View(s), script, k);
    }
    var again := ApplyEntries(t, script);
    SaidBefore(View(s), script, |script|);
    SecondFates(View(s), script, again.fates);
    EventsCounted(t, script);
    if AllUnchanged(again.fates) {
      UnchangedWritesNothing(t, script);
    } else {
      SomeWritten(again.fates);
    }
  }
}
