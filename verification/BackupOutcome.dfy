/**
 What an import of an accepted document comes to, whatever the document is: how far it
 gets, what it leaves behind and what it answers.
 */
module BackupOutcome {
  import opened Inventory
  import opened StoreModel
  import opened StoreInvariant
  import opened BackupNames
  import opened BackupImport
  import opened BackupOverlay
  import opened BackupCycles
  import opened BackupStored
  import opened BackupWorld
  import opened BackupApply

  /** What stops an import at entry `i`, if anything. */
  ghost function Hindrance(view: NameView, script: seq<Entry>, i: int): Option<Error>
    requires 0 <= i < |script|
  {
    if Collides(view, script, i) then Some(Conflict)
    else if !NamesAcyclic(view + DocView(StoredAll(script)[..i + 1])) then Some(Cycle)
    else None
  }

  ghost predicate Unhindered(view: NameView, script: seq<Entry>, n: nat)
    requires n <= |script|
  {
    forall i :: 0 <= i < n ==> Hindrance(view, script, i).None?
  }

  /**
   The import goes on up to the first entry that is hindered and answers with what hinders
   it. As far as it goes, every name stands for what the entries say, or else for what it
   stood for before; rows they do not mention are untouched; and the fate of each entry is
   read off what the inventory said at the start.
   */
  ghost predicate Imports(s: State, script: seq<Entry>, r: Applied)
    requires Sound(s) && Sound(r.state)
  {
    var n, stored := |r.fates|, StoredAll(script);
    && n <= |script|
    && View(r.state) == View(s) + DocView(stored[..n])
    && UnmentionedKept(s, r.state, stored[..n])
    && FatesFrom(View(s), stored, 0, r.fates)
    && Unhindered(View(s), script, n)
    && r.error == (if n < |script| then Hindrance(View(s), script, n) else None)
    && (n < |script| ==> r.error.Some?)
  }

  ghost function FirstCollision(view: NameView, script: seq<Entry>, done: nat): (c: nat)
    requires done <= |script| && NoneCollides(view, script, done)
    ensures done <= c <= |script| && NoneCollides(view, script, c)
    ensures c < |script| ==> Collides(view, script, c)
    decreases |script| - done
  {
    if done == |script| || Collides(view, script, done) then done else FirstCollision(view, script, done + 1)
  }

  lemma FatesOfPrefix(view: NameView, script: seq<Entry>, c: nat, fates: seq<Fate>)
    requires c <= |script| && FatesFrom(view, script[..c], 0, fates)
    ensures FatesFrom(view, script, 0, fates)
  {
    hide EntryFate;
    forall i | 0 <= i < |fates| ensures fates[i - 0] == EntryFate(view, script[i]) {
      assert script[..c][i] == script[i];
      assert fates[i - 0] == EntryFate(view, script[..c][i]);
    }
  }

  lemma UnhinderedPrefix(view: NameView, script: seq<Entry>, c: nat, n: nat)
    requires n <= c <= |script| && NoneCollides(view, script, c)
    requires forall k :: 0 < k <= n ==> NamesAcyclic(view + DocView(StoredAll(script)[..c][..k]))
    ensures Unhindered(view, script, n)
  {
    hide NamesAcyclic, Collides, DocView, StoredAll;
    forall i | 0 <= i < n ensures Hindrance(view, script, i).None? {
      assert StoredAll(script)[..c][..i + 1] == StoredAll(script)[..i + 1];
    }
  }

  /** The run by names up to the first collision, and the collision, make up the import. */
  lemma CutRunImports(s: State, script: seq<Entry>, c: nat, a: Applied, r: Applied)
    requires Sound(s) && Sound(a.state) && Sound(r.state) && c <= |script| && |a.fates| <= c
    requires r == CutShort(a, c < |script|)
    requires NoneCollides(View(s), script, c) && (c < |script| ==> Collides(View(s), script, c))
    requires RunsAsFar(View(s), StoredAll(script)[..c], 0, s, a)
    ensures Imports(s, script, r)
  {
    hide Sound, View, NamesAcyclic, Collides, DocView, StoredAll, UnmentionedKept, FatesFrom;
    var stored, n := StoredAll(script), |a.fates|;
    assert stored[..c][..n] == stored[..n];
    FatesOfPrefix(View(s), stored, c, a.fates);
    UnhinderedPrefix(View(s), script, c, n);
    if n < c {
      assert stored[..c][..n + 1] == stored[..n + 1];
    }
  }

  /** Every import of a script that passed the checks, exactly. */
  lemma ImportOutcome(s: State, m: Maps, script: seq<Entry>)
    requires Sound(s) && InStep(m, World(s)) && Checkable(View(s), script)
    ensures Imports(s, script, ApplyBy(s, m, script))
  {
    hide Sound, View, Checkable, InStep, Follows, Collides, RunsAsFar, Imports, DocView, StoredAll, Resting;
    var c := FirstCollision(View(s), script, 0);
    RunsTo(s, m, script, c);
    StoredRunnable(View(s), script, c);
    ImportOverlays(s, StoredAll(script)[..c]);
    CutRunImports(s, script, c, ApplyEntries(s, StoredAll(script)[..c]), ApplyBy(s, m, script));
  }

  lemma RunsTo(s: State, m: Maps, script: seq<Entry>, c: nat)
    requires Sound(s) && InStep(m, World(s)) && Checkable(View(s), script)
    requires c <= |script| && NoneCollides(View(s), script, c) && (c < |script| ==> Collides(View(s), script, c))
    ensures Resting(View(s))
    ensures ApplyBy(s, m, script) == CutShort(ApplyEntries(s, StoredAll(script)[..c]), c < |script|)
  {
    hide Sound, View, Checkable, InStep, Follows, Collides, ApplyBy, ApplyEntries, Resting;
    SoundRests(s);
    InStepFollows(s, m);
    WholeScript(View(s), script);
    WholeScript(View(s), StoredAll(script));
    WholeScript(View(s), StoredAll(script)[..c]);
    ApplyByNames(View(s), script, 0, c, s, m);
  }

  // ---- What is written -------------------------------------------------------------------

  /**
   Every entry created or updated leaves one event, also when the import stops; and it
   writes nothing exactly when it reports nothing but unchanged entries.
   */
  lemma ImportWrites(s: State, m: Maps, script: seq<Entry>)
    requires Sound(s) && InStep(m, World(s)) && Checkable(View(s), script)
    ensures var r := ApplyBy(s, m, script);
      && |r.state.log| == |s.log| + Written(r.fates)
      && (r.state == s <==> AllUnchanged(r.fates))
  {
    hide Sound, View, Checkable, InStep, Follows, Collides, DocView, StoredAll, Resting, ApplyBy, ApplyEntries;
    var c := FirstCollision(View(s), script, 0);
    RunsTo(s, m, script, c);
    var stored := StoredAll(script)[..c];
    EventsCounted(s, stored);
    var r := ApplyEntries(s, stored);
    if AllUnchanged(r.fates) {
      UnchangedWritesNothing(s, stored);
    } else {
      SomeWritten(r.fates);
    }
  }

  // ---- Hindrances of a later run -----------------------------------------------------------

  lemma UnhinderedSplits(view: NameView, script: seq<Entry>, n: nat)
    requires n <= |script|
    ensures Unhindered(view, script, n) <==>
      NoneCollides(view, script, n) && forall k :: 0 < k <= n ==> NamesAcyclic(view + DocView(StoredAll(script)[..k]))
  {
    hide Collides, NamesAcyclic, DocView, StoredAll;
    if Unhindered(view, script, n) {
      forall i | 0 <= i < n ensures !Collides(view, script, i) {
        assert Hindrance(view, script, i).None?;
      }
      forall k | 0 < k <= n ensures NamesAcyclic(view + DocView(StoredAll(script)[..k])) {
        assert Hindrance(view, script, k - 1).None?;
        assert StoredAll(script)[..k - 1 + 1] == StoredAll(script)[..k];
      }
    }
  }

  /** What a script says in the form of the store rests, laid over what rests. */
  lemma StoredViewRests(view: NameView, script: seq<Entry>, k: nat)
    requires Resting(view) && k <= |script|
    ensures Resting(view + DocView(StoredAll(script)[..k]))
  {
    hide StoreKey, KeyOf, DocView, Stored;
    var stored := StoredAll(script)[..k];
    forall key | key in view + DocView(stored) ensures Rests(key) {
      if key in DocView(stored) {
        DocViewMentions(stored, key);
        var i :| 0 <= i < k && KeyOf(stored[i]) == key;
        StoredKey(script[i]);
        StoreKeyRests(KeyOf(script[i]));
      }
    }
  }

  lemma StoredMentions(script: seq<Entry>, k: nat, key: NameKey)
    requires k <= |script|
    ensures key in DocView(StoredAll(script)[..k]) <==> exists j :: 0 <= j < k && StoreKey(KeyOf(script[j])) == key
  {
    hide StoreKey, KeyOf, DocView, Stored;
    var stored := StoredAll(script)[..k];
    DocViewMentions(stored, key);
    forall j | 0 <= j < k ensures KeyOf(stored[j]) == StoreKey(KeyOf(script[j])) {
      StoredKey(script[j]);
    }
    if key in DocView(stored) {
      var j :| 0 <= j < k && KeyOf(stored[j]) == key;
      assert StoreKey(KeyOf(script[j])) == key;
    }
    if exists j :: 0 <= j < k && StoreKey(KeyOf(script[j])) == key {
      var j :| 0 <= j < k && StoreKey(KeyOf(script[j])) == key;
      assert KeyOf(stored[j]) == key;
    }
  }

  /** Where the first `k` entries have been applied, one of them collides unless its name rests. */
  lemma CollidesAgain(view: NameView, script: seq<Entry>, k: nat, i: int)
    requires Resting(view) && 0 <= i < k <= |script|
    ensures Collides(view + DocView(StoredAll(script)[..k]), script, i) <==> !Rests(KeyOf(script[i]))
  {
    hide StoreKey, KeyOf, DocView, StoredAll;
    var after := view + DocView(StoredAll(script)[..k]);
    StoredViewRests(view, script, k);
    StoredMentions(script, k, StoreKey(KeyOf(script[i])));
    assert StoreKey(KeyOf(script[i])) in after;
    if KeyOf(script[i]) in after {
      assert Rests(KeyOf(script[i]));
    }
  }

  /** An entry still to come collides afterwards when it would have. */
  lemma CollidesStill(view: NameView, script: seq<Entry>, k: nat, i: int)
    requires NamesDistinct(script) && k <= i < |script| && AllRest(script, k)
    ensures Collides(view + DocView(StoredAll(script)[..k]), script, i) <==> Collides(view, script, i)
  {
    hide StoreKey, KeyOf, DocView, StoredAll;
    var key := KeyOf(script[i]);
    StoredMentions(script, k, key);
    StoredMentions(script, k, StoreKey(key));
    forall j | 0 <= j < k ensures StoreKey(KeyOf(script[j])) != key {
      assert Rests(KeyOf(script[j])) && KeyOf(script[j]) != key;
    }
  }

  /** The stored forms of unhindered entries have different names. */
  lemma UnhinderedDistinct(view: NameView, script: seq<Entry>, k: nat)
    requires Resting(view) && NamesDistinct(script) && k <= |script| && Unhindered(view, script, k)
    ensures NamesDistinct(StoredAll(script)[..k])
  {
    hide Collides, NamesAcyclic, Resting, StoredAll;
    UnhinderedSplits(view, script, k);
    CollisionFree(view, script, k);
    ApartPrefix(view, script, k);
    StoredPrefix(script, k);
    StoredNamesDistinct(view, script[..k]);
  }

  /** What hinders the entries that have been applied, when the document is imported again. */
  lemma HinderedAgain(view: NameView, script: seq<Entry>, k: nat, i: int)
    requires Resting(view) && NamesDistinct(script) && 0 <= i < k <= |script| && Unhindered(view, script, k)
    requires NamesAcyclic(view + DocView(StoredAll(script)[..k]))
    ensures Hindrance(view + DocView(StoredAll(script)[..k]), script, i) ==
      if Rests(KeyOf(script[i])) then None else Some(Conflict)
  {
    hide Collides, NamesAcyclic, Resting, StoredAll, DocView, Rests, KeyOf, NamesDistinct, Unhindered;
    CollidesAgain(view, script, k, i);
    UnhinderedDistinct(view, script, k);
    SaidBefore(view, StoredAll(script)[..k], i + 1);
    assert StoredAll(script)[..k][..i + 1] == StoredAll(script)[..i + 1];
    assert StoredAll(script)[..k][..k] == StoredAll(script)[..k];
  }

  /** What hinders the entries that have not, after a part in the form of the store. */
  lemma HinderedStill(view: NameView, script: seq<Entry>, k: nat, i: int)
    requires NamesDistinct(script) && k <= i < |script| && AllRest(script, k)
    ensures Hindrance(view + DocView(StoredAll(script)[..k]), script, i) == Hindrance(view, script, i)
  {
    hide Collides, NamesAcyclic, StoredAll, DocView, AllRest, NamesDistinct;
    CollidesStill(view, script, k, i);
    SaidAfter(view, StoredAll(script)[..i + 1], k);
    assert StoredAll(script)[..i + 1][..k] == StoredAll(script)[..k];
  }
}
