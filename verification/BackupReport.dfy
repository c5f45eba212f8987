/**
 What an import reports: how many of the entries it applied had a name that was new, said
 something else than the inventory, or said what the inventory said already.
 */
module BackupReport {
  import opened BackupDocument
  import opened BackupNames
  import opened BackupImport
  import opened BackupOverlay
  import opened BackupWorld
  import opened BackupApply

  /** The entries whose name was not there before. */
  function NewNames(view: NameView, script: seq<Entry>, a: nat, b: nat): set<int>
    requires a <= b <= |script|
  {
    set i | a <= i < b && KeyOf(script[i]) !in view
  }

  /** The inventory said already what the entry says, labels in stored order. */
  predicate SaidAlready(view: NameView, entry: Entry) {
    KeyOf(entry) in view && view[KeyOf(entry)] == FactsFrom(entry) && Orderly(entry)
  }

  function OldNews(view: NameView, script: seq<Entry>, a: nat, b: nat): set<int>
    requires a <= b <= |script|
  {
    set i | a <= i < b && SaidAlready(view, script[i])
  }

  /** The entries whose name stood for something else, or that list labels in another order. */
  function Changes(view: NameView, script: seq<Entry>, a: nat, b: nat): set<int>
    requires a <= b <= |script|
  {
    set i | a <= i < b && KeyOf(script[i]) in view && !SaidAlready(view, script[i])
  }

  predicate CountsExactly(counts: Counts, view: NameView, script: seq<Entry>, a: nat, b: nat)
    requires a <= b <= |script|
  {
    && counts.created == |NewNames(view, script, a, b)|
    && counts.updated == |Changes(view, script, a, b)|
    && counts.untouched == |OldNews(view, script, a, b)|
  }

  function Least(a: nat, b: nat): nat {
    if a < b then a else b
  }

  /** The report on the first `n` entries, kind by kind. */
  predicate ReportsExactly(report: Report, view: NameView, script: seq<Entry>, n: nat, doc: Document)
    requires n <= |script| == |doc.rooms| + |doc.containers| + |doc.items|
  {
    var rooms, containers := Least(n, |doc.rooms|), Least(n, |doc.rooms| + |doc.containers|);
    && CountsExactly(report.rooms, view, script, 0, rooms)
    && CountsExactly(report.containers, view, script, rooms, containers)
    && CountsExactly(report.items, view, script, containers, n)
  }

  // ---- Counting fates -----------------------------------------------------------------------

  function Met(fates: seq<Fate>, a: nat, b: nat, fate: Fate): set<int>
    requires a <= b <= |fates|
  {
    set i | a <= i < b && fates[i] == fate
  }

  /** How often a fate was met is the number of positions it was met at. */
  lemma {:induction false} MetCounts(fates: seq<Fate>, a: nat, b: nat, fate: Fate)
    requires a <= b <= |fates|
    ensures multiset(fates[a..b])[fate] == |Met(fates, a, b, fate)|
    decreases b - a
  {
    hide Met;
    if a == b {
      NoneMet(fates, a, fate);
    } else {
      MetCounts(fates, a, b - 1, fate);
      CountedOnceMore(fates, a, b, fate);
      MetOnceMore(fates, a, b, fate);
    }
  }

  lemma NoneMet(fates: seq<Fate>, a: nat, fate: Fate)
    requires a <= |fates|
    ensures Met(fates, a, a, fate) == {}
  {
  }

  lemma CountedOnceMore(fates: seq<Fate>, a: nat, b: nat, fate: Fate)
    requires a < b <= |fates|
    ensures multiset(fates[a..b])[fate] == multiset(fates[a..b - 1])[fate] + if fates[b - 1] == fate then 1 else 0
  {
    assert fates[a..b] == fates[a..b - 1] + [fates[b - 1]];
  }

  lemma MetOnceMore(fates: seq<Fate>, a: nat, b: nat, fate: Fate)
    requires a < b <= |fates|
    ensures |Met(fates, a, b, fate)| == |Met(fates, a, b - 1, fate)| + if fates[b - 1] == fate then 1 else 0
  {
    if fates[b - 1] == fate {
      assert Met(fates, a, b, fate) == Met(fates, a, b - 1, fate) + {b - 1};
    } else {
      assert Met(fates, a, b, fate) == Met(fates, a, b - 1, fate);
    }
  }

  lemma FatesAreNames(view: NameView, script: seq<Entry>, fates: seq<Fate>, a: nat, b: nat)
    requires FatesFrom(view, script, 0, fates) && a <= b <= |fates|
    ensures Met(fates, a, b, Created) == NewNames(view, script, a, b)
    ensures Met(fates, a, b, Updated) == Changes(view, script, a, b)
    ensures Met(fates, a, b, Unchanged) == OldNews(view, script, a, b)
  {
    hide KeyOf, FactsFrom, Orderly;
    forall i | a <= i < b ensures fates[i] == EntryFate(view, script[i]) {
      assert fates[i - 0] == EntryFate(view, script[i]);
    }
  }

  lemma StretchExact(view: NameView, script: seq<Entry>, fates: seq<Fate>, a: nat, b: nat)
    requires FatesFrom(view, script, 0, fates) && a <= b
    ensures Least(|fates|, a) <= Least(|fates|, b) <= |script|
    ensures CountsExactly(Tally(Stretch(fates, a, b)), view, script, Least(|fates|, a), Least(|fates|, b))
  {
    hide Tally, EntryFate, NewNames, Changes, OldNews, Met;
    var from, to := Least(|fates|, a), Least(|fates|, b);
    assert Stretch(fates, a, b) == fates[from..to];
    TallyCounts(fates[from..to]);
    MetCounts(fates, from, to, Created);
    MetCounts(fates, from, to, Updated);
    MetCounts(fates, from, to, Unchanged);
    FatesAreNames(view, script, fates, from, to);
  }

  /** The report of an import says of each kind what became of the entries that were applied. */
  lemma ReportIsExact(view: NameView, script: seq<Entry>, fates: seq<Fate>, doc: Document)
    requires FatesFrom(view, script, 0, fates) && |script| == |doc.rooms| + |doc.containers| + |doc.items|
    ensures |fates| <= |script| && ReportsExactly(ReportOf(fates, doc), view, script, |fates|, doc)
  {
    hide Stretch, Tally, EntryFate, CountsExactly;
    var r, c, i := |doc.rooms|, |doc.containers|, |doc.items|;
    StretchExact(view, script, fates, 0, r);
    StretchExact(view, script, fates, r, r + c);
    StretchExact(view, script, fates, r + c, r + c + i);
  }

  // ---- Imports all of one kind -------------------------------------------------------------

  /** Everything was created. */
  function AllNew(doc: Document): Report {
    Report(Counts(|doc.rooms|, 0, 0), Counts(|doc.containers|, 0, 0), Counts(|doc.items|, 0, 0))
  }

  /** Everything stood already. */
  function AllStood(doc: Document): Report {
    Report(Counts(0, 0, |doc.rooms|), Counts(0, 0, |doc.containers|), Counts(0, 0, |doc.items|))
  }

  /** All entries met the same fate. */
  predicate AllMet(fates: seq<Fate>, fate: Fate) {
    forall i :: 0 <= i < |fates| ==> fates[i] == fate
  }

  lemma {:induction false} AllOne(fates: seq<Fate>, fate: Fate)
    ensures AllMet(fates, fate) <==> multiset(fates)[fate] == |fates|
    ensures multiset(fates)[fate] <= |fates|
    decreases |fates|
  {
    if fates != [] {
      var before, last := fates[..|fates| - 1], fates[|fates| - 1];
      AllOne(before, fate);
      assert fates == before + [last];
    }
  }

  lemma OthersNone(fates: seq<Fate>, fate: Fate)
    requires AllMet(fates, fate)
    ensures forall other :: other != fate ==> multiset(fates)[other] == 0
  {
    forall other | other != fate ensures multiset(fates)[other] == 0 {
      assert other !in fates;
    }
  }

  lemma TallyOfOne(fates: seq<Fate>)
    ensures Tally(fates) == Counts(|fates|, 0, 0) <==> AllMet(fates, Created)
    ensures Tally(fates) == Counts(0, 0, |fates|) <==> AllMet(fates, Unchanged)
  {
    hide Tally, AllMet;
    TallyCounts(fates);
    AllOne(fates, Created);
    AllOne(fates, Unchanged);
    if AllMet(fates, Created) {
      OthersNone(fates, Created);
    }
    if AllMet(fates, Unchanged) {
      OthersNone(fates, Unchanged);
    }
  }

  lemma WholeStretches(fates: seq<Fate>, a: nat, b: nat)
    requires a <= b <= |fates|
    ensures Stretch(fates, 0, a) == fates[..a] && Stretch(fates, a, b) == fates[a..b] && Stretch(fates, b, |fates|) == fates[b..]
  {
  }

  lemma InThreeParts(fates: seq<Fate>, a: nat, b: nat, fate: Fate)
    requires a <= b <= |fates|
    ensures AllMet(fates, fate) <==> AllMet(fates[..a], fate) && AllMet(fates[a..b], fate) && AllMet(fates[b..], fate)
  {
    var x, y, z := fates[..a], fates[a..b], fates[b..];
    if AllMet(x, fate) && AllMet(y, fate) && AllMet(z, fate) {
      forall i | 0 <= i < |fates| ensures fates[i] == fate {
        assert fates[i] == if i < a then x[i] else if i < b then y[i - a] else z[i - b];
      }
    }
  }

  /** A whole import reports all entries as new, or all as standing, exactly when they were. */
  lemma WholeReport(fates: seq<Fate>, doc: Document)
    requires |fates| == |doc.rooms| + |doc.containers| + |doc.items|
    ensures ReportOf(fates, doc) == AllNew(doc) <==> AllMet(fates, Created)
    ensures ReportOf(fates, doc) == AllStood(doc) <==> AllMet(fates, Unchanged)
  {
    hide Tally, Stretch, AllMet;
    var r, c := |doc.rooms|, |doc.containers|;
    WholeStretches(fates, r, r + c);
    TallyOfOne(fates[..r]);
    TallyOfOne(fates[r..r + c]);
    TallyOfOne(fates[r + c..]);
    InThreeParts(fates, r, r + c, Created);
    InThreeParts(fates, r, r + c, Unchanged);
  }
}
