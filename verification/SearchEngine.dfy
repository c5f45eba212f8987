/** A whole search: the candidates of the store, classified, ranked and cut to a page. */
module SearchEngine {
  import opened Sequences
  import opened Sorting
  import opened Inventory
  import opened StoreModel
  import opened StoreInvariant
  import opened Store
  import opened Like
  import opened LocationIndex
  import opened LocationAgrees
  import opened LocationCount
  import opened Search

  const DEFAULT_LIMIT := 10
  const MAX_LIMIT := 50

  function RankOrder(r: Result): seq<Part> {
    [Number(RankOf(r.match_))]
  }

  /** Folding a term again changes nothing. */
  ghost predicate FoldsOnce(terms: seq<string>, fold: string -> string) {
    forall term :: term in terms ==> fold(term) == term
  }

  lemma FieldOfText(item: Item, v: string) returns (field: Field)
    requires v in TextsOf(item)
    ensures v in FieldValues(item, field)
  {
    field := if v == item.name then NameField else if v == item.description then DescriptionField
      else if v in item.aliases then AliasField else TagField;
  }

  /** No candidate of the repository is left without a match. */
  lemma CandidateClassified(item: Item, query: string, fold: string -> string)
    requires FoldsToLowerCase(fold) && FoldsOnce(SearchTerms(query, fold), fold)
    requires SearchTerms(query, fold) != [] && IsCandidate(item, SearchTerms(query, fold), fold)
    ensures exists m :: HitBy(item, SearchTerms(query, fold), fold, m)
  {
    hide FoldsToLowerCase, TermMatches, Occurs, ClassifyValue, SearchTerms, TextsOf, Hit, FieldValues;
    CandidateExact(item, query, fold);
    var terms := SearchTerms(query, fold);
    var term := terms[0];
    assert term in terms;
    var v :| v in TextsOf(item) && Occurs(term, fold(v));
    var field := FieldOfText(item, v);
    ClassifiedContains(v, term, fold);
    var m := Match(field, ClassifyValue(v, term, fold).value);
    HitIsClassified(item, term, fold, m);
    assert Hit(item, fold(term), fold, m);
    assert HitBy(item, terms, fold, m);
  }

  function CandidatesIn(items: seq<Item>, terms: seq<string>, fold: string -> string): seq<Item> {
    Filter(items, i => IsCandidate(i, terms, fold))
  }

  /** The repository's answer: the stored items no term of the query fails on. */
  method SearchItems(repos: Repos, query: string, fold: string -> string) returns (rows: seq<Item>, ghost listed: seq<Item>)
    requires Sound(repos.View())
    ensures Lists(listed, repos.View().items)
    ensures rows == if SearchTerms(query, fold) == [] then [] else CandidatesIn(listed, SearchTerms(query, fold), fold)
  {
    hide Sound, SearchTerms, TermMatches;
    var terms := SearchTerms(query, fold);
    var items := repos.ListItems();
    listed, rows := items, [];
    if terms == [] {
      return;
    }
    for i := 0 to |items|
      invariant rows == CandidatesIn(items[..i], terms, fold)
    {
      assert items[..i + 1][..i] == items[..i];
      if IsCandidate(items[i], terms, fold) {
        rows := rows + [items[i]];
      }
    }
    assert items[..|items|] == items;
  }

  /** What a result says about its item. */
  ghost predicate Describes(s: State, r: Result, terms: seq<string>, fold: string -> string)
    requires RowsKeyed(s.containers)
  {
    && r.path == PathOfPlace(s.rooms, s.containers, r.item.location)
    && ((exists m :: HitBy(r.item, terms, fold, m)) ==>
      HitBy(r.item, terms, fold, r.match_) && forall m :: HitBy(r.item, terms, fold, m) ==> RankOf(r.match_) <= RankOf(m))
  }

  function ItemsOf(results: seq<Result>): (items: seq<Item>)
    ensures |items| == |results| && forall i :: 0 <= i < |items| ==> items[i] == results[i].item
  {
    seq(|results|, i requires 0 <= i < |results| => results[i].item)
  }

  /**
   A search: every candidate with the path of its place and its best match, sorted by
   rank; equally good ones stay in the order the repository gave.
   */
  method Find(repos: Repos, query: string, fold: string -> string)
    returns (results: seq<Result>, ghost found: seq<Result>, ghost listed: seq<Item>)
    requires Sound(repos.View())
    ensures RowsKeyed(repos.View().containers) && Lists(listed, repos.View().items)
    ensures SearchTerms(query, fold) == [] ==> results == []
    ensures SearchTerms(query, fold) != [] ==> ItemsOf(found) == CandidatesIn(listed, SearchTerms(query, fold), fold)
    ensures forall r :: r in found ==> Describes(repos.View(), r, SearchTerms(query, fold), fold)
    ensures results == StableSort(found, RankOrder)
  {
    hide Sound, SearchTerms, HitBy, PathOfPlace, CandidatesIn, IndexOf;
    var terms := SearchTerms(query, fold);
    ghost var s := repos.View();
    SoundRows(s);
    found := [];
    if terms == [] {
      var none := repos.ListItems();
      return [], [], none;
    }
    var items;
    items, listed := SearchItems(repos, query, fold);
    if items == [] {
      return [], [], listed;
    }
    var rooms := repos.ListRooms();
    var containers := repos.ListContainers();
    var index := NewLocationIndex(rooms, containers, fold);
    IndexTables(s, rooms, containers, fold);
    results := [];
    for i := 0 to |items|
      invariant ItemsOf(results) == items[..i]
      invariant forall r :: r in results ==> Describes(s, r, terms, fold)
    {
      var match_, ok := Classify(items[i], terms, fold);
      var path := Path(index, items[i].location);
      results := results + [Result(items[i], path, match_)];
    }
    found := results;
    results := StableSort(results, RankOrder);
  }

  /** The order of the results: best rank first, nothing lost, stable within a rank. */
  lemma FoundInOrder(found: seq<Result>, k: seq<Part>)
    ensures var results := StableSort(found, RankOrder);
      && multiset(results) == multiset(found)
      && (forall i, j :: 0 <= i < j < |results| ==> RankOf(results[i].match_) <= RankOf(results[j].match_))
      && WithKey(results, RankOrder, k) == WithKey(found, RankOrder, k)
  {
    hide RankOf, WithKey;
    SortPermutes(found, RankOrder);
    SortSorted(found, RankOrder);
    SortStable(found, RankOrder, k);
    var results := StableSort(found, RankOrder);
    forall i, j | 0 <= i < j < |results| ensures RankOf(results[i].match_) <= RankOf(results[j].match_) {
      assert !KeyLess(RankOrder(results[j]), RankOrder(results[i]));
    }
  }

  /** Every word of the folded query occurs in the folded name, description, an alias or a tag of the item. */
  ghost predicate EveryWordIn(item: Item, query: string, fold: string -> string) {
    forall w :: WordOf(fold(query), w) ==> WordIn(item, w, fold)
  }

  predicate WordIn(item: Item, w: string, fold: string -> string) {
    || Occurs(w, fold(item.name)) || Occurs(w, fold(item.description))
    || (exists a :: a in item.aliases && Occurs(w, fold(a)))
    || (exists t :: t in item.tags && Occurs(w, fold(t)))
  }

  lemma TextsHaveWord(item: Item, w: string, fold: string -> string)
    ensures WordIn(item, w, fold) <==> exists v :: v in TextsOf(item) && Occurs(w, fold(v))
  {
    hide Occurs;
    var texts := TextsOf(item);
    assert texts[0] == item.name && texts[1] == item.description;
  }

  lemma WordsInTexts(item: Item, query: string, fold: string -> string)
    ensures EveryWordIn(item, query, fold) <==>
      forall term :: term in SearchTerms(query, fold) ==> exists v :: v in TextsOf(item) && Occurs(term, fold(v))
  {
    hide SearchTerms, WordOf, WordIn, TextsOf, Occurs;
    forall w ensures (w in SearchTerms(query, fold) <==> WordOf(fold(query), w))
      && (WordIn(item, w, fold) <==> exists v :: v in TextsOf(item) && Occurs(w, fold(v)))
    {
      TermsAreWords(query, fold, w);
      TextsHaveWord(item, w, fold);
    }
  }

  /** Every stored candidate is found once, and each with its best match. */
  lemma FoundExactly(s: State, listed: seq<Item>, found: seq<Result>, query: string, fold: string -> string)
    requires Sound(s) && RowsKeyed(s.containers) && Lists(listed, s.items)
    requires FoldsToLowerCase(fold) && FoldsOnce(SearchTerms(query, fold), fold) && SearchTerms(query, fold) != []
    requires ItemsOf(found) == CandidatesIn(listed, SearchTerms(query, fold), fold)
    requires forall r :: r in found ==> Describes(s, r, SearchTerms(query, fold), fold)
    ensures Distinct(ItemsOf(found))
    ensures forall id :: id in s.items ==>
      (s.items[id] in ItemsOf(found) <==>
        forall term :: term in SearchTerms(query, fold) ==> exists v :: v in TextsOf(s.items[id]) && Occurs(term, fold(v)))
    ensures forall id :: id in s.items ==> (s.items[id] in ItemsOf(found) <==> EveryWordIn(s.items[id], query, fold))
    ensures forall r :: r in found ==> HitBy(r.item, SearchTerms(query, fold), fold, r.match_)
  {
    hide Sound, SearchTerms, FoldsToLowerCase, FoldsOnce, TextsOf, Occurs, HitBy, IsCandidate, PathOfPlace;
    var terms := SearchTerms(query, fold);
    FilterMembers(listed, i => IsCandidate(i, terms, fold));
    FilterDistinct(listed, i => IsCandidate(i, terms, fold));
    forall id | id in s.items
      ensures s.items[id] in ItemsOf(found) <==>
        forall term :: term in terms ==> exists v :: v in TextsOf(s.items[id]) && Occurs(term, fold(v))
    {
      CandidateExact(s.items[id], query, fold);
    }
    forall id | id in s.items
      ensures EveryWordIn(s.items[id], query, fold) <==>
        forall term :: term in terms ==> exists v :: v in TextsOf(s.items[id]) && Occurs(term, fold(v))
    {
      WordsInTexts(s.items[id], query, fold);
    }
    forall r | r in found ensures HitBy(r.item, terms, fold, r.match_) {
      var i :| 0 <= i < |found| && found[i] == r;
      assert ItemsOf(found)[i] == r.item && r.item in ItemsOf(found);
      CandidateClassified(r.item, query, fold);
    }
  }

  /** The first results, as many as asked for; how many there are, and whether some are missing. */
  method Page(found: seq<Result>, asked: int) returns (page: seq<Result>, count: nat, truncated: bool)
    ensures page <= found && count == |found| && (truncated <==> page != found)
    ensures |page| <= 50 && (asked <= 0 ==> |page| <= 10) && (0 < asked ==> |page| <= asked)
    ensures |page| <= MAX_LIMIT && (truncated ==> |page| == if asked <= 0 then DEFAULT_LIMIT else if asked > MAX_LIMIT then MAX_LIMIT else asked)
  {
    var limit := if asked <= 0 then DEFAULT_LIMIT else if asked > MAX_LIMIT then MAX_LIMIT else asked;
    var kept := if limit < |found| then limit else |found|;
    page, count := [], |found|;
    for i := 0 to kept
      invariant page == found[..i]
    {
      page := page + [found[i]];
    }
    truncated := count > |page|;
  }
}
