/**
 What an import promises, about the run itself: names looked up in the maps that were
 filled from the store it found. Every result is about every document that is accepted.
 */
module BackupPromises {
  import opened Text
  import opened Inventory
  import opened StoreModel
  import opened StoreInvariant
  import opened BackupDocument
  import opened BackupNames
  import opened BackupImport
  import opened BackupOverlay
  import opened BackupCheck
  import opened BackupCycles
  import opened BackupStored
  import opened BackupExport
  import opened BackupRoundTrip
  import opened BackupWorld
  import opened BackupApply
  import opened BackupOutcome
  import opened BackupReport

  /** An accepted document, the store it is applied to, and the index of that store. */
  ghost predicate Importable(s: State, m: Maps, doc: Document) {
    Sound(s) && InStep(m, World(s)) && Accepts(s, doc)
  }

  /** Each kind of entity is reported as often as entries of it were applied. */
  predicate ReportsAll(fates: seq<Fate>, doc: Document) {
    var report, n := ReportOf(fates, doc), |fates|;
    && Total(report.rooms) == Within(n, 0, |doc.rooms|)
    && Total(report.containers) == Within(n, |doc.rooms|, |doc.containers|)
    && Total(report.items) == Within(n, |doc.rooms| + |doc.containers|, |doc.items|)
  }

  /**
   An import is an overlay, also where it stops. Up to the first entry that is hindered
   every name comes to stand for what the document says, and every other name and every
   row the document does not mention stays. The report counts the entries applied, kind by
   kind: as created those whose name was not there, as unchanged those that say what the
   inventory said, and as updated the others. The event log grows by the entries written.
   */
  lemma ImportLaysOver(s: State, m: Maps, doc: Document)
    requires Importable(s, m, doc)
    ensures var r := ApplyBy(s, m, Script(doc));
      && Imports(s, Script(doc), r) && ReportsAll(r.fates, doc)
      && |Script(doc)| == |doc.rooms| + |doc.containers| + |doc.items|
      && ReportsExactly(ReportOf(r.fates, doc), View(s), StoredAll(Script(doc)), |r.fates|, doc)
      && |r.state.log| == |s.log| + Written(r.fates)
  {
    hide ApplyBy, ApplyEntries, Sound, InStep, View, Checkable, Imports, ReportOf, Tally, Total, Within, Written, AllUnchanged;
    hide RoomsAccepted, ContainerAccepted, ItemAccepted, ItemKeysDistinct;
    AcceptedCheckable(s, doc);
    ImportOutcome(s, m, Script(doc));
    ImportWrites(s, m, Script(doc));
    ReportCountsEntries(ApplyBy(s, m, Script(doc)).fates, doc);
    ScriptLength(doc);
    ImportedFates(s, Script(doc), ApplyBy(s, m, Script(doc)));
    ReportIsExact(View(s), StoredAll(Script(doc)), ApplyBy(s, m, Script(doc)).fates, doc);
  }

  lemma ImportedFates(s: State, script: seq<Entry>, r: Applied)
    requires Sound(s) && Sound(r.state) && Imports(s, script, r)
    ensures FatesFrom(View(s), StoredAll(script), 0, r.fates) && |r.fates| <= |script|
  {
    hide Sound, View, DocView, UnmentionedKept, Unhindered, Hindrance, FatesFrom, StoredAll;
  }

  /**
   Exactly when an accepted document goes through, and with which error it does not: no
   entry may collide with what the store keeps, nor close a circle of names; the first
   that does either stops the import with ErrConflict or ErrCycle, and nothing else does.
   */
  lemma ImportFailsExactly(s: State, m: Maps, doc: Document)
    requires Importable(s, m, doc)
    ensures var r, script := ApplyBy(s, m, Script(doc)), Script(doc);
      && (r.error.None? <==> NoneCollides(View(s), script, |script|) && NeverCircular(View(s), StoredAll(script), 0))
      && (r.error.Some? ==>
        && |r.fates| < |script| && Unhindered(View(s), script, |r.fates|)
        && (r.error == Some(Conflict) <==> Collides(View(s), script, |r.fates|))
        && (r.error == Some(Cycle) <==> !Collides(View(s), script, |r.fates|)))
  {
    hide ApplyBy, ApplyEntries, Sound, InStep, Checkable, Collides, View, NamesAcyclic, DocView, StoredAll, UnmentionedKept, FatesFrom;
    hide RoomsAccepted, ContainerAccepted, ItemAccepted, ItemKeysDistinct;
    AcceptedCheckable(s, doc);
    ImportOutcome(s, m, Script(doc));
    UnhinderedSplits(View(s), Script(doc), |Script(doc)|);
  }

  lemma CanonicalFacts(s: State, doc: Document)
    requires Sound(s) && Accepts(s, doc) && CanonicalNames(doc)
    ensures AllRest(Script(doc), |Script(doc)|) && StoredAll(Script(doc)) == Script(doc)
    ensures NoneCollides(View(s), Script(doc), |Script(doc)|)
  {
    hide Sound, View, Checkable, Collides, AllRest, StoredAll, Resting, RoomsAccepted, ContainerAccepted, ItemAccepted, ItemKeysDistinct;
    AcceptedCheckable(s, doc);
    CheckableDistinct(View(s), Script(doc));
    SoundRests(s);
    CanonicalRests(s, doc);
    AllRestStored(View(s), Script(doc));
    RestingNoCollision(View(s), Script(doc), |Script(doc)|);
  }

  lemma CheckableDistinct(view: NameView, script: seq<Entry>)
    requires Checkable(view, script)
    ensures NamesDistinct(script)
  {
  }

  /** A canonical document runs as its script, by names. */
  lemma CanonicalRun(s: State, m: Maps, doc: Document)
    requires Importable(s, m, doc) && CanonicalNames(doc)
    ensures ApplyBy(s, m, Script(doc)) == ApplyEntries(s, Script(doc))
  {
    hide ApplyBy, ApplyEntries, Sound, InStep, View, Checkable, Collides, AllRest, StoredAll;
    hide RoomsAccepted, ContainerAccepted, ItemAccepted, ItemKeysDistinct;
    AcceptedCheckable(s, doc);
    CanonicalFacts(s, doc);
    RunsTo(s, m, Script(doc), |Script(doc)|);
    WholeScript(View(s), Script(doc));
  }

  /**
   A canonical document goes through exactly when the names hang together without a
   circle after each of its entries; where they do not, the answer is ErrCycle.
   */
  lemma ImportFailsOnlyOnCircles(s: State, m: Maps, doc: Document)
    requires Importable(s, m, doc) && CanonicalNames(doc)
    ensures var error := ApplyBy(s, m, Script(doc)).error;
      && (error.None? <==> NeverCircular(View(s), Script(doc), 0))
      && (error.Some? ==> error.value == Cycle)
  {
    hide ApplyBy, ApplyEntries, Sound, InStep, View, NeverCircular, Collides, StoredAll, AllRest, Unhindered;
    ImportFailsExactly(s, m, doc);
    CanonicalFacts(s, doc);
  }

  lemma ClosedStored(script: seq<Entry>, c: nat)
    requires ClosedScript(script) && c <= |script|
    ensures ClosedScript(StoredAll(script)[..c])
  {
    hide Trim, ScopeKey;
    var stored := StoredAll(script)[..c];
    forall i | 0 <= i < c ensures HangsInside(stored[..i], stored[i]) {
      assert HangsInside(script[..i], script[i]);
      TrimsToNothing();
      if stored[i].ContainerEntry? && stored[i].container.parent != "" {
        var j :| 0 <= j < i && script[..i][j].ContainerEntry? && EntryKey(script[..i][j].container) == ParentKey(script[i].container);
        StoredKey(script[j]);
        StoredParentKey(script[i].container);
        assert stored[..i][j] == Stored(script[j]);
      }
    }
  }

  lemma TrimsToNothing()
    ensures Trim("") == ""
  {
  }

  /** What a document that declares its parents says never hangs in a circle. */
  lemma ClosedNoCircle(s: State, doc: Document, n: nat)
    requires Sound(s) && Accepts(s, doc) && Closed(doc)
    requires n < |Script(doc)| && Unhindered(View(s), Script(doc), n) && !Collides(View(s), Script(doc), n)
    ensures Hindrance(View(s), Script(doc), n).None?
  {
    hide Sound, View, Checkable, Runnable, Collides, NamesAcyclic, StoredAll, DocView, Resting, ClosedScript, Closed;
    hide RoomsAccepted, ContainerAccepted, ItemAccepted, ItemKeysDistinct;
    var script := Script(doc);
    AcceptedCheckable(s, doc);
    SoundRests(s);
    UnhinderedSplits(View(s), script, n);
    StoredRunnable(View(s), script, n + 1);
    ClosedIsClosedScript(doc);
    ClosedStored(script, n + 1);
    ClosedNeverCircular(s, StoredAll(script)[..n + 1]);
    assert StoredAll(script)[..n + 1][..n + 1] == StoredAll(script)[..n + 1];
  }

  /**
   A document that declares every parent it names never fails with ErrCycle, however the
   store nests its containers: it goes through exactly when no entry collides, so always
   if its names are canonical.
   */
  lemma ClosedImportOverlays(s: State, m: Maps, doc: Document)
    requires Importable(s, m, doc) && Closed(doc)
    ensures var r, script := ApplyBy(s, m, Script(doc)), Script(doc);
      && (r.error.None? <==> NoneCollides(View(s), script, |script|))
      && (r.error.Some? ==> r.error.value == Conflict)
      && (CanonicalNames(doc) ==> r.error.None?)
      && (r.error.None? ==>
        && View(r.state) == View(s) + DocView(StoredAll(script))
        && UnmentionedKept(s, r.state, StoredAll(script))
        && FatesFrom(View(s), StoredAll(script), 0, r.fates)
        && Total(ReportOf(r.fates, doc).rooms) == |doc.rooms|
        && Total(ReportOf(r.fates, doc).containers) == |doc.containers|
        && Total(ReportOf(r.fates, doc).items) == |doc.items|)
  {
    hide ApplyBy, ApplyEntries, Sound, InStep, View, Collides, StoredAll, AllRest, Unhindered, NamesAcyclic, Closed;
    hide RoomsAccepted, ContainerAccepted, ItemAccepted, ItemKeysDistinct, UnmentionedKept, FatesFrom, DocView, Total, ReportOf, ReportsExactly;
    var r, script := ApplyBy(s, m, Script(doc)), Script(doc);
    ImportLaysOver(s, m, doc);
    ImportFailsExactly(s, m, doc);
    WholeScript(View(s), StoredAll(script));
    ScriptLength(doc);
    if r.error.Some? && !Collides(View(s), script, |r.fates|) {
      ClosedNoCircle(s, doc, |r.fates|);
    }
    if CanonicalNames(doc) {
      CanonicalFacts(s, doc);
    }
  }

  /** What is accepted once is accepted again once more names are known. */
  lemma AcceptedStill(s: State, t: State, doc: Document)
    requires Sound(s) && Sound(t) && View(s).Keys <= View(t).Keys && Accepts(s, doc)
    ensures Accepts(t, doc)
  {
    hide Sound, RoomsAccepted, ItemKeysDistinct, Ordered, Read, ValidContainer, ValidItem;
    forall key | key in World(s) ensures key in World(t) {
      ViewKnowsWorld(s, key);
      assert key in View(t);
      ViewKnowsWorld(t, key);
    }
    forall i | 0 <= i < |doc.containers| ensures ContainerAccepted(t, doc, doc.containers[i]) {
      assert ContainerAccepted(s, doc, doc.containers[i]);
    }
    forall i | 0 <= i < |doc.items| ensures ItemAccepted(t, doc, doc.items[i]) {
      assert ItemAccepted(s, doc, doc.items[i]);
    }
  }

  lemma OrderlyAt(doc: Document, i: nat)
    requires Ordered(doc.containers).Ok? && OrderedLabels(doc) && i < |Script(doc)|
    ensures Orderly(Script(doc)[i])
  {
    hide Ordered, StoredLabels, ScriptOf;
    ScriptLength(doc);
    ScriptAt(doc.rooms, Ordered(doc.containers).value, doc.items, i);
    if i >= |doc.rooms| + |doc.containers| {
      assert doc.items[i - |doc.rooms| - |doc.containers|] in doc.items;
    }
  }

  lemma OrderlyScript(doc: Document)
    requires Ordered(doc.containers).Ok?
    ensures AllOrderly(Script(doc)) <==> OrderedLabels(doc)
  {
    hide Ordered, StoredLabels, ScriptOf;
    ScriptLength(doc);
    var script := Script(doc);
    if OrderedLabels(doc) {
      forall i | 0 <= i < |script| ensures Orderly(script[i]) {
        OrderlyAt(doc, i);
      }
    }
    if AllOrderly(script) {
      forall e | e in doc.items ensures Orderly(ItemEntry(e)) {
        var k :| 0 <= k < |doc.items| && doc.items[k] == e;
        var i := |doc.rooms| + |doc.containers| + k;
        ScriptAt(doc.rooms, Ordered(doc.containers).value, doc.items, i);
        assert Orderly(script[i]);
      }
    }
  }

  lemma StoredOrderly(script: seq<Entry>)
    ensures AllOrderly(StoredAll(script)) <==> AllOrderly(script)
  {
    hide StoredLabels;
    forall i | 0 <= i < |script| ensures Orderly(StoredAll(script)[i]) <==> Orderly(script[i]) {
    }
    if AllOrderly(StoredAll(script)) {
      forall i | 0 <= i < |script| ensures Orderly(script[i]) {
        assert Orderly(StoredAll(script)[i]);
      }
    }
  }

  /** Canonical documents in this sense are those a second import leaves alone. */
  lemma CanonicalIs(s: State, doc: Document)
    requires Sound(s) && Accepts(s, doc)
    ensures Canonical(doc) <==> AllRest(Script(doc), |Script(doc)|) && AllOrderly(StoredAll(Script(doc)))
  {
    hide Sound, AllRest, StoredAll, CanonicalNames, OrderedLabels, AllOrderly, RoomsAccepted, ContainerAccepted, ItemAccepted, ItemKeysDistinct;
    CanonicalRests(s, doc);
    OrderlyScript(doc);
    StoredOrderly(Script(doc));
  }

  /** A run of entries each of which collides unless its name rests. */
  lemma SecondRun(t: State, script: seq<Entry>, r: Applied)
    requires Sound(t) && Sound(r.state) && Imports(t, script, r)
    requires forall i :: 0 <= i < |script| ==> Hindrance(View(t), script, i) == if Rests(KeyOf(script[i])) then None else Some(Conflict)
    ensures r.error.None? <==> AllRest(script, |script|)
    ensures r.error.Some? ==> r.error.value == Conflict
    ensures |r.fates| <= |script| && (r.error.None? <==> |r.fates| == |script|)
  {
    hide Sound, View, Hindrance, UnmentionedKept, FatesFrom, DocView, StoredAll, StoreKey, KeyOf;
    if r.error.None? {
      forall i | 0 <= i < |script| ensures Rests(KeyOf(script[i])) {
        assert Hindrance(View(t), script, i).None?;
      }
    }
  }

  lemma WholeApplied(s: State, script: seq<Entry>, r: Applied)
    requires Sound(s) && Sound(r.state) && Imports(s, script, r) && r.error.None?
    ensures |r.fates| == |script| && View(r.state) == View(s) + DocView(StoredAll(script))
    ensures Unhindered(View(s), script, |script|) && FatesFrom(View(s), StoredAll(script), 0, r.fates)
  {
    hide Sound, View, Hindrance, UnmentionedKept, FatesFrom, DocView, StoredAll;
    WholeScript(View(s), StoredAll(script));
  }

  /** What hinders the entries of a script that went through, when it is run again. */
  lemma HinderedOnceMore(s: State, t: State, script: seq<Entry>)
    requires Sound(s) && Sound(t) && Checkable(View(s), script) && Unhindered(View(s), script, |script|)
    requires View(t) == View(s) + DocView(StoredAll(script))
    ensures NamesDistinct(StoredAll(script))
    ensures forall i :: 0 <= i < |script| ==> Hindrance(View(t), script, i) == if Rests(KeyOf(script[i])) then None else Some(Conflict)
  {
    hide Sound, View, NamesAcyclic, Resting, Checkable, Hindrance, Unhindered, DocView, Rests, KeyOf, NamesDistinct;
    SoundRests(s);
    SoundNamesAcyclic(t);
    CheckableDistinct(View(s), script);
    WholeScript(View(s), StoredAll(script));
    UnhinderedDistinct(View(s), script, |script|);
    forall i | 0 <= i < |script|
      ensures Hindrance(View(t), script, i) == if Rests(KeyOf(script[i])) then None else Some(Conflict)
    {
      HinderedAgain(View(s), script, |script|, i);
    }
  }

  /** Everything is reported unchanged again exactly when the labels are in order. */
  lemma FatesAgain(view: NameView, script: seq<Entry>, fates: seq<Fate>)
    requires NamesDistinct(StoredAll(script)) && |fates| == |script|
    requires FatesFrom(view + DocView(StoredAll(script)), StoredAll(script), 0, fates)
    ensures AllUnchanged(fates) <==> AllOrderly(StoredAll(script))
  {
    SecondFates(view, StoredAll(script), fates);
  }

  /**
   Importing a document again that went through: it is accepted again and no name changes
   its meaning, whatever happens. It reports everything unchanged, and writes nothing,
   exactly when the document is canonical: its names in the form of the store and its
   labels in stored order; the report then counts every entry of each kind as unchanged and
   none as created or updated. It fails, with ErrConflict, exactly when its names are not.
   */
  lemma SecondImport(s: State, m: Maps, doc: Document, again: Maps)
    requires Importable(s, m, doc) && ApplyBy(s, m, Script(doc)).error.None?
    requires InStep(again, World(ApplyBy(s, m, Script(doc)).state))
    ensures var t := ApplyBy(s, m, Script(doc)).state;
      var r := ApplyBy(t, again, Script(doc));
      && Accepts(t, doc) && View(r.state) == View(t)
      && (r.error.None? <==> CanonicalNames(doc))
      && (r.error.Some? ==> r.error.value == Conflict)
      && (r.error.None? && AllUnchanged(r.fates) <==> Canonical(doc))
      && (r.error.None? && ReportOf(r.fates, doc) == AllStood(doc) <==> Canonical(doc))
      && (r.error.None? && r.state == t <==> Canonical(doc))
  {
    hide ApplyBy, ApplyEntries, Sound, InStep, View, DocView, Checkable, Hindrance, Unhindered, StoredAll, Imports, AllRest, NamesDistinct;
    hide RoomsAccepted, ContainerAccepted, ItemAccepted, ItemKeysDistinct, FatesFrom, CanonicalNames, OrderedLabels, AllUnchanged, AllOrderly;
    var script := Script(doc);
    var t := ApplyBy(s, m, script).state;
    AcceptedCheckable(s, doc);
    ImportOutcome(s, m, script);
    WholeApplied(s, script, ApplyBy(s, m, script));
    AcceptedStill(s, t, doc);
    AcceptedCheckable(t, doc);
    ImportOutcome(t, again, script);
    ImportWrites(t, again, script);
    HinderedOnceMore(s, t, script);
    var r := ApplyBy(t, again, script);
    SecondRun(t, script, r);
    CanonicalIs(t, doc);
    CanonicalRests(t, doc);
    AgainLaidOver(s, t, script, r);
    if r.error.None? {
      WholeApplied(t, script, r);
      FatesAgain(View(s), script, r.fates);
      ScriptLength(doc);
      QuietReport(r.fates, doc);
    }
  }

  lemma QuietReport(fates: seq<Fate>, doc: Document)
    requires |fates| == |doc.rooms| + |doc.containers| + |doc.items|
    ensures ReportOf(fates, doc) == AllStood(doc) <==> AllUnchanged(fates)
  {
    hide ReportOf;
    WholeReport(fates, doc);
  }

  lemma AgainLaidOver(s: State, t: State, script: seq<Entry>, r: Applied)
    requires Sound(s) && Sound(t) && Sound(r.state) && NamesDistinct(StoredAll(script))
    requires View(t) == View(s) + DocView(StoredAll(script)) && Imports(t, script, r)
    ensures View(r.state) == View(t)
  {
    hide Sound, View, DocView, StoredAll, NamesDistinct, FatesFrom, UnmentionedKept, Unhindered, Hindrance;
    SaidBefore(View(s), StoredAll(script), |r.fates|);
  }

  // ---- Stopped imports -----------------------------------------------------------------------

  lemma PrefixImports(s: State, script: seq<Entry>, k: nat, whole: Applied, part: Applied)
    requires Sound(s) && Sound(whole.state) && Sound(part.state)
    requires Imports(s, script, whole) && k <= |whole.fates|
    requires k <= |script| && Imports(s, script[..k], part)
    ensures part.error.None? && View(part.state) == View(s) + DocView(StoredAll(script)[..k])
    ensures Unhindered(View(s), script, k)
  {
    hide Sound, View, DocView, FatesFrom, UnmentionedKept, Collides, NamesAcyclic, StoredAll;
    StoredPrefix(script, k);
    forall i | 0 <= i < k ensures Hindrance(View(s), script[..k], i).None? {
      assert Hindrance(View(s), script, i).None?;
      HindranceOfPrefix(View(s), script, k, i);
    }
    WholeScript(View(s), StoredAll(script[..k]));
    assert |part.fates| == k;
  }

  lemma HindranceOfPrefix(view: NameView, script: seq<Entry>, k: nat, i: int)
    requires 0 <= i < k <= |script|
    ensures Hindrance(view, script[..k], i) == Hindrance(view, script, i)
  {
    hide NamesAcyclic, DocView, StoreKey, KeyOf, Stored;
    assert StoredAll(script[..k])[..i + 1] == StoredAll(script)[..i + 1];
    assert forall j :: 0 <= j < k ==> script[..k][j] == script[j];
  }

  /** Two runs with the same hindrances from `k` on, and none before, stop at the same entry. */
  lemma StopSame(s: State, u: State, script: seq<Entry>, k: nat, whole: Applied, rest: Applied)
    requires Sound(s) && Sound(u) && Sound(whole.state) && Sound(rest.state)
    requires Imports(s, script, whole) && Imports(u, script, rest) && k <= |whole.fates|
    requires forall i :: 0 <= i < k ==> Hindrance(View(u), script, i).None?
    requires forall i :: k <= i < |script| ==> Hindrance(View(u), script, i) == Hindrance(View(s), script, i)
    ensures |rest.fates| == |whole.fates| && rest.error == whole.error
  {
    hide Sound, View, DocView, FatesFrom, UnmentionedKept, Hindrance, StoredAll;
  }

  /** A run that is hindered before `k` leaves what the first `k` entries had left. */
  lemma StopsEarly(s: State, u: State, script: seq<Entry>, k: nat, rest: Applied)
    requires Sound(s) && Sound(u) && Sound(rest.state) && k <= |script| && Imports(u, script, rest)
    requires View(u) == View(s) + DocView(StoredAll(script)[..k]) && NamesDistinct(StoredAll(script)[..k])
    requires forall i :: 0 <= i < k ==> Hindrance(View(u), script, i) == if Rests(KeyOf(script[i])) then None else Some(Conflict)
    requires !AllRest(script, k)
    ensures |rest.fates| < k && rest.error == Some(Conflict) && View(rest.state) == View(u)
  {
    hide Sound, View, DocView, FatesFrom, UnmentionedKept, Hindrance, StoredAll, Rests, KeyOf, NamesDistinct;
    var i :| 0 <= i < k && !Rests(KeyOf(script[i]));
    assert Hindrance(View(u), script, i).Some?;
    var n := |rest.fates|;
    assert n <= i;
    SaidBefore(View(s), StoredAll(script)[..k], n);
    assert StoredAll(script)[..k][..n] == StoredAll(script)[..n];
  }

  lemma HinderedAfterPart(s: State, u: State, script: seq<Entry>, k: nat)
    requires Sound(s) && Sound(u) && Checkable(View(s), script) && k <= |script| && Unhindered(View(s), script, k)
    requires View(u) == View(s) + DocView(StoredAll(script)[..k])
    ensures NamesDistinct(StoredAll(script)[..k])
    ensures forall i :: 0 <= i < k ==> Hindrance(View(u), script, i) == if Rests(KeyOf(script[i])) then None else Some(Conflict)
    ensures AllRest(script, k) ==>
      forall i :: k <= i < |script| ==> Hindrance(View(u), script, i) == Hindrance(View(s), script, i)
  {
    hide Sound, View, NamesAcyclic, Resting, Checkable, Hindrance, Unhindered, DocView, Rests, KeyOf, NamesDistinct, StoredAll;
    SoundRests(s);
    SoundNamesAcyclic(u);
    CheckableDistinct(View(s), script);
    UnhinderedDistinct(View(s), script, k);
    forall i | 0 <= i < k
      ensures Hindrance(View(u), script, i) == if Rests(KeyOf(script[i])) then None else Some(Conflict)
    {
      HinderedAgain(View(s), script, k, i);
    }
    if AllRest(script, k) {
      forall i | k <= i < |script| ensures Hindrance(View(u), script, i) == Hindrance(View(s), script, i) {
        HinderedStill(View(s), script, k, i);
      }
    }
  }

  /** The same names end up meaning the same, in however many parts a script is applied. */
  lemma SameInParts(s: State, u: State, script: seq<Entry>, k: nat, whole: Applied, rest: Applied)
    requires Sound(s) && Sound(u) && Sound(whole.state) && Sound(rest.state)
    requires Imports(s, script, whole) && Imports(u, script, rest)
    requires k <= |whole.fates| == |rest.fates|
    requires View(u) == View(s) + DocView(StoredAll(script)[..k])
    ensures View(rest.state) == View(whole.state)
  {
    hide Sound, View, DocView, FatesFrom, UnmentionedKept, Hindrance, StoredAll, Unhindered;
    var n := |whole.fates|;
    SaidAfter(View(s), StoredAll(script)[..n], k);
    assert StoredAll(script)[..n][..k] == StoredAll(script)[..k];
  }

  /**
   An import that was broken off after `k` entries, run again: the document is still
   accepted. If the names of those entries are in the form of the store, the second run
   gets exactly as far as an unbroken one would have got, answers the same and leaves the
   same meanings; if not, it stops among them with ErrConflict and changes no meaning.
   */
  lemma StoppedImport(s: State, m: Maps, doc: Document, k: nat, again: Maps)
    requires Importable(s, m, doc) && k <= |Script(doc)| && k <= |ApplyBy(s, m, Script(doc)).fates|
    requires InStep(again, World(ApplyBy(s, m, Script(doc)[..k]).state))
    ensures var stopped, whole := ApplyBy(s, m, Script(doc)[..k]), ApplyBy(s, m, Script(doc));
      var r := ApplyBy(stopped.state, again, Script(doc));
      && stopped.error.None? && Accepts(stopped.state, doc)
      && (AllRest(Script(doc), k) ==>
        |r.fates| == |whole.fates| && r.error == whole.error && View(r.state) == View(whole.state))
      && (!AllRest(Script(doc), k) ==>
        |r.fates| < k && r.error == Some(Conflict) && View(r.state) == View(stopped.state))
  {
    hide ApplyBy, ApplyEntries, Sound, InStep, View, DocView, Checkable, Hindrance, Unhindered, StoredAll, Imports, AllRest, NamesDistinct;
    hide RoomsAccepted, ContainerAccepted, ItemAccepted, ItemKeysDistinct, Rests, KeyOf;
    var script := Script(doc);
    AcceptedCheckable(s, doc);
    CheckablePrefix(View(s), script, k);
    ImportOutcome(s, m, script);
    ImportOutcome(s, m, script[..k]);
    var stopped, whole := ApplyBy(s, m, script[..k]), ApplyBy(s, m, script);
    PrefixImports(s, script, k, whole, stopped);
    AcceptedStill(s, stopped.state, doc);
    AcceptedCheckable(stopped.state, doc);
    ImportOutcome(stopped.state, again, script);
    var r := ApplyBy(stopped.state, again, script);
    HinderedAfterPart(s, stopped.state, script, k);
    if AllRest(script, k) {
      RestUnhindered(View(stopped.state), script, k);
      StopSame(s, stopped.state, script, k, whole, r);
      SameInParts(s, stopped.state, script, k, whole, r);
    } else {
      StopsEarly(s, stopped.state, script, k, r);
    }
  }

  lemma RestUnhindered(view: NameView, script: seq<Entry>, k: nat)
    requires k <= |script| && AllRest(script, k)
    requires forall i :: 0 <= i < k ==> Hindrance(view, script, i) == if Rests(KeyOf(script[i])) then None else Some(Conflict)
    ensures forall i :: 0 <= i < k ==> Hindrance(view, script, i).None?
  {
    hide Hindrance, StoreKey, KeyOf;
    forall i | 0 <= i < k ensures Hindrance(view, script, i).None? {
      assert Rests(KeyOf(script[i]));
    }
  }

  // ---- The round trip -------------------------------------------------------------------------

  /** An empty store is found with no names. */
  lemma EmptyMaps()
    requires Sound(EMPTY)
    ensures InStep(Maps(map[], map[], map[]), World(EMPTY))
  {
    EmptyView();
    NothingIndexed(World(EMPTY));
  }

  /**
   The round trip: importing an export of any sound store into an empty instance
   succeeds, creates and reports as created every entry, restores every meaning, and exports
   the same again.
   */
  lemma ExportImportExport(s: State, doc: Document)
    requires Sound(s) && IsExport(s, doc)
    ensures Sound(EMPTY) && Accepts(EMPTY, doc) && InStep(Maps(map[], map[], map[]), World(EMPTY))
    ensures var r := ApplyBy(EMPTY, Maps(map[], map[], map[]), Script(doc));
      && r.error.None? && Sound(r.state) && View(r.state) == View(s)
      && |r.fates| == |doc.rooms| + |doc.containers| + |doc.items|
      && (forall i :: 0 <= i < |r.fates| ==> r.fates[i].Created?)
      && ReportOf(r.fates, doc) == AllNew(doc)
      && doc.format == FORMAT && doc.version == VERSION
      && (forall again :: IsExport(r.state, again) ==> again == doc)
  {
    hide ApplyBy, ApplyEntries, Accepts, DocView, Sound, InStep, IsExport, ReportOf;
    RoundTrip(s, doc);
    ExportIsExported(s, doc);
    ExportCanonical(s, doc);
    EmptyMaps();
    CanonicalRun(EMPTY, Maps(map[], map[], map[]), doc);
    ScriptLength(doc);
    WholeReport(ApplyBy(EMPTY, Maps(map[], map[], map[]), Script(doc)).fates, doc);
  }
}
