/**
 Searching: which items are candidates for a query, which match of a candidate is its
 best, and the order the results come in.
 */
module Search {
  import opened Text
  import opened Inventory
  import opened Like

  datatype Field = NameField | AliasField | TagField | DescriptionField | OtherField(text: string)

  datatype Closeness = Exact | Prefix | Partial | OtherCloseness(text: string)

  datatype Match = Match(field: Field, kind: Closeness)

  datatype Result = Result(item: Item, path: string, match_: Match)

  const FIELD_ORDER := [NameField, AliasField, TagField, DescriptionField]
  const KIND_ORDER := [Exact, Prefix, Partial]

  // ---- Terms ---------------------------------------------------------------------------------

  function WordLength(s: string): (n: nat)
    ensures n <= |s| && forall i :: 0 <= i < n ==> !IsSpace(s[i])
    ensures n < |s| ==> IsSpace(s[n])
  {
    if s == [] || IsSpace(s[0]) then 0 else 1 + WordLength(s[1..])
  }

  /** The words of a text. */
  function Words(s: string): seq<string>
    decreases |s|
  {
    if s == [] then []
    else if IsSpace(s[0]) then Words(s[1..])
    else [s[..WordLength(s)]] + Words(s[WordLength(s)..])
  }

  function SearchTerms(query: string, fold: string -> string): seq<string> {
    Words(fold(query))
  }

  /** A whole word stands at `i`: it has no white space inside and nothing else around it. */
  predicate WordAt(s: string, i: nat, w: string) {
    && w != "" && At(w, s, i)
    && (forall k :: 0 <= k < |w| ==> !IsSpace(w[k]))
    && (i > 0 ==> IsSpace(s[i - 1]))
    && (i + |w| < |s| ==> IsSpace(s[i + |w|]))
  }

  /** The words start where `starts` says, one after the other, and leave out only white space. */
  ghost predicate CutsInto(s: string, words: seq<string>, starts: seq<nat>) {
    && |starts| == |words|
    && (forall k :: 0 <= k < |words| ==> WordAt(s, starts[k], words[k]))
    && (forall j, k :: 0 <= j < k < |words| ==> starts[j] + |words[j]| < starts[k])
    && (forall i :: 0 <= i < |s| && !IsSpace(s[i]) ==> exists k :: 0 <= k < |words| && starts[k] <= i < starts[k] + |words[k]|)
  }

  lemma WordFurther(s: string, n: nat, i: nat, w: string)
    requires n <= |s| && WordAt(s[n..], i, w) && (i == 0 && n > 0 ==> IsSpace(s[n - 1]))
    ensures WordAt(s, n + i, w)
  {
    assert s[n..][i..i + |w|] == s[n + i..n + i + |w|];
  }

  /** Where each word of the text starts. */
  function WordStarts(s: string): (starts: seq<nat>)
    ensures |starts| == |Words(s)|
    decreases |s|
  {
    if s == [] then []
    else
      var n := if IsSpace(s[0]) then 1 else WordLength(s);
      (if IsSpace(s[0]) then [] else [0]) + Further(WordStarts(s[n..]), n)
  }

  function Further(starts: seq<nat>, n: nat): (r: seq<nat>)
    ensures |r| == |starts| && forall k :: 0 <= k < |r| ==> r[k] == n + starts[k]
  {
    seq(|starts|, k requires 0 <= k < |starts| => n + starts[k])
  }

  lemma CutsAfterSpace(s: string, words: seq<string>, starts: seq<nat>)
    requires s != [] && IsSpace(s[0]) && CutsInto(s[1..], words, starts)
    ensures CutsInto(s, words, Further(starts, 1))
  {
    hide WordAt;
    forall k | 0 <= k < |words| ensures WordAt(s, 1 + starts[k], words[k]) {
      WordFurther(s, 1, starts[k], words[k]);
    }
    forall i | 0 <= i < |s| && !IsSpace(s[i])
      ensures exists k :: 0 <= k < |words| && 1 + starts[k] <= i < 1 + starts[k] + |words[k]|
    {
      assert s[1..][i - 1] == s[i];
    }
  }

  lemma FirstWord(s: string, n: nat)
    requires 0 < n <= |s| && (forall i :: 0 <= i < n ==> !IsSpace(s[i])) && (n < |s| ==> IsSpace(s[n]))
    ensures WordAt(s, 0, s[..n])
  {
  }

  /** A word of what follows a word starts after the white space between them. */
  lemma NextWord(s: string, n: nat, i: nat, w: string)
    requires 0 < n <= |s| && (n < |s| ==> IsSpace(s[n])) && WordAt(s[n..], i, w)
    ensures i > 0 && WordAt(s, n + i, w)
  {
    assert w[0] == s[n..][i];
    WordFurther(s, n, i, w);
  }

  lemma CoversMore(s: string, n: nat, words: seq<string>, starts: seq<nat>, i: nat)
    requires 0 < n <= |s| && CutsInto(s[n..], words, starts) && i < |s| && !IsSpace(s[i])
    ensures var all, from := [s[..n]] + words, [0] + Further(starts, n);
      exists k :: 0 <= k < |all| && from[k] <= i < from[k] + |all[k]|
  {
    hide WordAt;
    var all, from := [s[..n]] + words, [0] + Further(starts, n);
    if i < n {
      assert from[0] <= i < from[0] + |all[0]|;
    } else {
      assert s[n..][i - n] == s[i];
      var k :| 0 <= k < |words| && starts[k] <= i - n < starts[k] + |words[k]|;
      assert from[k + 1] == n + starts[k] && all[k + 1] == words[k];
    }
  }

  lemma CutsAfterWord(s: string, n: nat, words: seq<string>, starts: seq<nat>)
    requires 0 < n <= |s| && (forall i :: 0 <= i < n ==> !IsSpace(s[i])) && (n < |s| ==> IsSpace(s[n]))
    requires CutsInto(s[n..], words, starts)
    ensures CutsInto(s, [s[..n]] + words, [0] + Further(starts, n))
  {
    hide WordAt, IsSpace;
    var all, from := [s[..n]] + words, [0] + Further(starts, n);
    FirstWord(s, n);
    forall k | 0 <= k < |words| ensures starts[k] > 0 && WordAt(s, n + starts[k], words[k]) {
      NextWord(s, n, starts[k], words[k]);
    }
    forall k | 0 <= k < |all| ensures WordAt(s, from[k], all[k]) && (k > 0 ==> from[k] > n) {
      if k > 0 {
        assert all[k] == words[k - 1] && from[k] == n + starts[k - 1];
      }
    }
    forall j, k | 0 <= j < k < |all| ensures from[j] + |all[j]| < from[k] {
      if j > 0 {
        assert all[j] == words[j - 1] && from[j] == n + starts[j - 1] && from[k] == n + starts[k - 1];
      }
    }
    forall i | 0 <= i < |s| && !IsSpace(s[i]) ensures exists k :: 0 <= k < |all| && from[k] <= i < from[k] + |all[k]| {
      CoversMore(s, n, words, starts, i);
    }
  }

  /** The words of a text are all its words, in order, and nothing else. */
  lemma {:induction false} WordsAreWords(s: string)
    ensures CutsInto(s, Words(s), WordStarts(s))
    ensures forall w :: w in Words(s) ==> w != "" && (forall i :: 0 <= i < |w| ==> !IsSpace(w[i])) && Occurs(w, s)
    decreases |s|
  {
    hide CutsInto;
    if s == [] {
      NothingToCut();
    } else if IsSpace(s[0]) {
      WordsAreWords(s[1..]);
      CutsAfterSpace(s, Words(s[1..]), WordStarts(s[1..]));
      assert [] + Further(WordStarts(s[1..]), 1) == Further(WordStarts(s[1..]), 1);
    } else {
      var n := WordLength(s);
      WordsAreWords(s[n..]);
      CutsAfterWord(s, n, Words(s[n..]), WordStarts(s[n..]));
    }
    CutsOccur(s, Words(s), WordStarts(s));
  }

  lemma NothingToCut()
    ensures CutsInto("", [], [])
  {
  }

  lemma CutsOccur(s: string, words: seq<string>, starts: seq<nat>)
    requires CutsInto(s, words, starts)
    ensures forall w :: w in words ==> w != "" && (forall i :: 0 <= i < |w| ==> !IsSpace(w[i])) && Occurs(w, s)
  {
    forall w | w in words ensures w != "" && (forall i :: 0 <= i < |w| ==> !IsSpace(w[i])) && Occurs(w, s) {
      var k :| 0 <= k < |words| && words[k] == w;
      assert WordAt(s, starts[k], words[k]);
    }
  }

  /** Some whole word of the text. */
  ghost predicate WordOf(s: string, w: string) {
    exists i: nat :: WordAt(s, i, w)
  }

  lemma WordInside(s: string, i: nat, w: string, p: nat)
    requires WordAt(s, i, w) && i <= p < i + |w|
    ensures p < |s| && !IsSpace(s[p])
  {
    assert s[p] == w[p - i];
  }

  lemma WordEnds(s: string, i: nat, w: string)
    requires WordAt(s, i, w)
    ensures 0 < |w| && i + |w| <= |s| && s[i..i + |w|] == w
    ensures i > 0 ==> IsSpace(s[i - 1])
    ensures i + |w| < |s| ==> IsSpace(s[i + |w|])
  {
  }

  /** Two words that overlap are one. */
  lemma WordsApart(s: string, i: nat, v: string, j: nat, w: string)
    requires WordAt(s, i, v) && WordAt(s, j, w) && i <= j < i + |v|
    ensures i == j && v == w
  {
    hide WordAt, IsSpace;
    WordEnds(s, i, v);
    WordEnds(s, j, w);
    if j > i {
      WordInside(s, i, v, j - 1);
    } else if |v| < |w| {
      WordInside(s, j, w, i + |v|);
    } else if |w| < |v| {
      WordInside(s, i, v, j + |w|);
    }
  }

  /** The terms of a query are all the words of the folded query, and no other. */
  lemma TermsAreWords(query: string, fold: string -> string, w: string)
    ensures w in SearchTerms(query, fold) <==> WordOf(fold(query), w)
  {
    hide WordAt, Words, WordStarts, Occurs, At, IsSpace;
    var s, words, starts := fold(query), Words(fold(query)), WordStarts(fold(query));
    WordsAreWords(s);
    if w in words {
      var k :| 0 <= k < |words| && words[k] == w;
      assert WordAt(s, starts[k], words[k]);
    }
    if WordOf(s, w) {
      var i: nat :| WordAt(s, i, w);
      WordEnds(s, i, w);
      WordInside(s, i, w, i);
      var k :| 0 <= k < |words| && starts[k] <= i < starts[k] + |words[k]|;
      WordsApart(s, starts[k], words[k], i, w);
    }
  }

  lemma PieceLowerCase(w: string, s: string)
    requires LowerCase(s) && Occurs(w, s)
    ensures LowerCase(w)
  {
    var i :| 0 <= i <= |s| && At(w, s, i);
    forall k | 0 <= k < |w| ensures FoldChar(w[k]) == w[k] {
      assert w[k] == s[i + k] && ScopeKey(s)[i + k] == s[i + k];
    }
  }

  // ---- Candidates ------------------------------------------------------------------------------

  function TextsOf(item: Item): seq<string> {
    [item.name, item.description] + item.aliases + item.tags
  }

  /** One condition of the query: the pattern matches one of the folded texts. */
  predicate TermMatches(item: Item, pattern: string, fold: string -> string) {
    || Matches(pattern, fold(item.name))
    || Matches(pattern, fold(item.description))
    || (exists a :: a in item.aliases && Matches(pattern, fold(a)))
    || (exists t :: t in item.tags && Matches(pattern, fold(t)))
  }

  /** No term of the query fails. */
  predicate IsCandidate(item: Item, terms: seq<string>, fold: string -> string) {
    !exists term :: term in terms && !TermMatches(item, Containing(term), fold)
  }

  ghost predicate FoldsToLowerCase(fold: string -> string) {
    forall text :: LowerCase(fold(text))
  }

  lemma TermExact(item: Item, term: string, fold: string -> string)
    requires LowerCase(term) && FoldsToLowerCase(fold)
    ensures TermMatches(item, Containing(term), fold) <==> exists v :: v in TextsOf(item) && Occurs(term, fold(v))
  {
    hide Matches, Containing, Occurs, LowerCase;
    forall v ensures Matches(Containing(term), fold(v)) <==> Occurs(term, fold(v)) {
      FoldedLikeIsSubstring(term, fold(v));
    }
    var texts := TextsOf(item);
    assert texts[0] == item.name && texts[1] == item.description;
  }

  /**
   An item is a candidate for a query just when every term occurs in its name, its
   description, an alias or a tag, compared folded.
   */
  lemma CandidateExact(item: Item, query: string, fold: string -> string)
    requires FoldsToLowerCase(fold)
    ensures IsCandidate(item, SearchTerms(query, fold), fold) <==>
      forall term :: term in SearchTerms(query, fold) ==> exists v :: v in TextsOf(item) && Occurs(term, fold(v))
  {
    hide TermMatches, Occurs, Words, TextsOf;
    WordsAreWords(fold(query));
    forall term | term in SearchTerms(query, fold)
      ensures TermMatches(item, Containing(term), fold) <==> exists v :: v in TextsOf(item) && Occurs(term, fold(v))
    {
      PieceLowerCase(term, fold(query));
      TermExact(item, term, fold);
    }
  }

  // ---- Ranks -------------------------------------------------------------------------------------

  /** The first position of a value, or the length of a list that lacks it. */
  function Position<T(==)>(xs: seq<T>, x: T): (i: nat)
    ensures i <= |xs| && (i < |xs| <==> x in xs) && (i < |xs| ==> xs[i] == x)
  {
    if xs == [] then 0 else if xs[0] == x then 0 else 1 + Position(xs[1..], x)
  }

  function FieldIndex(field: Field): nat {
    Position(FIELD_ORDER, field)
  }

  function KindIndex(kind: Closeness): nat {
    Position(KIND_ORDER, kind)
  }

  function RankOf(m: Match): nat {
    FieldIndex(m.field) * |KIND_ORDER| + KindIndex(m.kind)
  }

  predicate Better(a: Match, b: Match) {
    if a.field != b.field then FieldIndex(a.field) < FieldIndex(b.field)
    else KindIndex(a.kind) < KindIndex(b.kind)
  }

  /** The two orders part where a kind nobody assigns ties with the next field's exact match. */
  predicate TiesAcross(a: Match, b: Match) {
    FieldIndex(a.field) + 1 == FieldIndex(b.field) && a.kind.OtherCloseness? && b.kind.Exact?
  }

  /** They part, too, between two different fields nobody knows. */
  predicate BothUnknown(a: Match, b: Match) {
    a.field.OtherField? && b.field.OtherField? && a.field != b.field && KindIndex(a.kind) < KindIndex(b.kind)
  }

  /** Exactly when the comparison agrees with the rank; on known fields and kinds it always does. */
  lemma BetterIsRank(a: Match, b: Match)
    ensures (Better(a, b) <==> RankOf(a) < RankOf(b)) <==> !TiesAcross(a, b) && !BothUnknown(a, b)
    ensures a.field in FIELD_ORDER && a.kind in KIND_ORDER ==> (Better(a, b) <==> RankOf(a) < RankOf(b))
  {
    IndexBounds(a);
    IndexBounds(b);
  }

  lemma IndexBounds(m: Match)
    ensures FieldIndex(m.field) == match m.field {
      case NameField => 0 case AliasField => 1 case TagField => 2 case DescriptionField => 3 case OtherField(_) => 4
    }
    ensures KindIndex(m.kind) == match m.kind { case Exact => 0 case Prefix => 1 case Partial => 2 case OtherCloseness(_) => 3 }
  {
    assert FIELD_ORDER[0] == NameField && FIELD_ORDER[1] == AliasField;
    assert FIELD_ORDER[2] == TagField && FIELD_ORDER[3] == DescriptionField;
    assert KIND_ORDER[0] == Exact && KIND_ORDER[1] == Prefix && KIND_ORDER[2] == Partial;
  }

  /** A name beats an alias, an alias a tag, a tag a description; in a field, exact beats prefix beats partial. */
  lemma RanksInOrder(a: Match, b: Match)
    requires !a.field.OtherField? && !b.field.OtherField? && !a.kind.OtherCloseness? && !b.kind.OtherCloseness?
    ensures a.field == b.field && a.kind == b.kind ==> RankOf(a) == RankOf(b)
    ensures a.field == b.field && a.kind.Exact? && b.kind.Prefix? ==> RankOf(a) < RankOf(b)
    ensures a.field == b.field && a.kind.Prefix? && b.kind.Partial? ==> RankOf(a) < RankOf(b)
    ensures a.field.NameField? && b.field.AliasField? ==> RankOf(a) < RankOf(b)
    ensures a.field.AliasField? && b.field.TagField? ==> RankOf(a) < RankOf(b)
    ensures a.field.TagField? && b.field.DescriptionField? ==> RankOf(a) < RankOf(b)
  {
    hide FieldIndex, KindIndex;
    IndexBounds(a);
    IndexBounds(b);
  }

  // ---- Classifying -------------------------------------------------------------------------------

  function FieldValues(item: Item, field: Field): seq<string> {
    match field
    case NameField => [item.name]
    case AliasField => item.aliases
    case TagField => item.tags
    case DescriptionField => [item.description]
    case OtherField(_) => []
  }

  function ClassifyValue(value: string, term: string, fold: string -> string): Option<Closeness> {
    var lower := fold(value);
    if lower == term then Some(Exact)
    else if term <= lower then Some(Prefix)
    else if Occurs(term, lower) then Some(Partial)
    else None
  }

  /** The item says the value in that field. */
  predicate HasValue(item: Item, field: Field, v: string) {
    match field
    case NameField => v == item.name
    case AliasField => v in item.aliases
    case TagField => v in item.tags
    case DescriptionField => v == item.description
    case OtherField(_) => false
  }

  lemma ValuesAre(item: Item, field: Field, v: string)
    ensures v in FieldValues(item, field) <==> HasValue(item, field, v)
  {
  }

  /** How closely a value matches a term: it is the term, begins with it, or contains it further on. */
  predicate MatchesAs(value: string, term: string, fold: string -> string, kind: Closeness) {
    match kind
    case Exact => fold(value) == term
    case Prefix => At(term, fold(value), 0) && fold(value) != term
    case Partial => Occurs(term, fold(value)) && !At(term, fold(value), 0)
    case OtherCloseness(_) => false
  }

  /** Exactly how a value is classified. */
  lemma ClassifyExactly(value: string, term: string, fold: string -> string)
    ensures forall kind :: ClassifyValue(value, term, fold) == Some(kind) <==> MatchesAs(value, term, fold, kind)
    ensures ClassifyValue(value, term, fold).None? <==> !Occurs(term, fold(value))
  {
    var lower := fold(value);
    assert term <= lower <==> At(term, lower, 0);
    assert lower == term ==> lower[0..0 + |term|] == term;
  }

  /** A value is classified just when it contains the term. */
  lemma ClassifiedContains(value: string, term: string, fold: string -> string)
    ensures ClassifyValue(value, term, fold).Some? <==> Occurs(term, fold(value))
  {
    var lower := fold(value);
    if term <= lower {
      assert At(term, lower, 0);
    }
  }

  /** Some value the item says in the match's field matches the term that closely. */
  ghost predicate Hit(item: Item, term: string, fold: string -> string, m: Match) {
    exists v :: HasValue(item, m.field, v) && MatchesAs(v, term, fold, m.kind)
  }

  lemma HitIsClassified(item: Item, term: string, fold: string -> string, m: Match)
    ensures Hit(item, term, fold, m) <==>
      exists v :: v in FieldValues(item, m.field) && ClassifyValue(v, term, fold) == Some(m.kind)
  {
    hide ClassifyValue, MatchesAs, HasValue, FieldValues;
    forall v ensures v in FieldValues(item, m.field) <==> HasValue(item, m.field, v) {
      ValuesAre(item, m.field, v);
    }
    forall v ensures ClassifyValue(v, term, fold) == Some(m.kind) <==> MatchesAs(v, term, fold, m.kind) {
      ClassifyExactly(v, term, fold);
    }
    if Hit(item, term, fold, m) {
      var v :| HasValue(item, m.field, v) && MatchesAs(v, term, fold, m.kind);
      assert v in FieldValues(item, m.field) && ClassifyValue(v, term, fold) == Some(m.kind);
    }
    if exists v :: v in FieldValues(item, m.field) && ClassifyValue(v, term, fold) == Some(m.kind) {
      var v :| v in FieldValues(item, m.field) && ClassifyValue(v, term, fold) == Some(m.kind);
      assert HasValue(item, m.field, v) && MatchesAs(v, term, fold, m.kind);
    }
  }

  /** Some term of the query has this match with the item. */
  ghost predicate HitBy(item: Item, terms: seq<string>, fold: string -> string, m: Match) {
    exists t :: t in terms && Hit(item, fold(t), fold, m)
  }

  /** Of the matches seen, the best is one with the smallest rank. */
  ghost predicate BestOf(seen: iset<Match>, found: bool, best: Match) {
    && (forall m :: m in seen ==> m.field in FIELD_ORDER && m.kind in KIND_ORDER)
    && (found <==> exists m :: m in seen)
    && (found ==> best in seen && forall m :: m in seen ==> RankOf(best) <= RankOf(m))
  }

  lemma BestKept(seen: iset<Match>, found: bool, best: Match, candidate: Match)
    requires BestOf(seen, found, best) && candidate.field in FIELD_ORDER && candidate.kind in KIND_ORDER
    ensures BestOf(seen + iset{candidate}, true, if !found || Better(candidate, best) then candidate else best)
  {
    hide RankOf, Better;
    assert candidate in seen + iset{candidate};
    BetterIsRank(candidate, best);
    if found {
      assert best.kind in KIND_ORDER;
    }
  }

  /** The matches the first `n` values of a field have with a term. */
  ghost function FieldHits(item: Item, field: Field, term: string, fold: string -> string, n: nat): iset<Match>
    requires n <= |FieldValues(item, field)|
  {
    iset m: Match | m.field == field && exists k :: 0 <= k < n && ClassifyValue(FieldValues(item, field)[k], term, fold) == Some(m.kind)
  }

  method BestInField(item: Item, field: Field, term: string, fold: string -> string, best0: Match, found0: bool, ghost seen: iset<Match>)
    returns (best: Match, found: bool)
    requires field in FIELD_ORDER && BestOf(seen, found0, best0)
    ensures BestOf(seen + FieldHits(item, field, term, fold, |FieldValues(item, field)|), found, best)
  {
    hide BestOf, Better, ClassifyValue;
    best, found := best0, found0;
    var values := FieldValues(item, field);
    assert seen + FieldHits(item, field, term, fold, 0) == seen;
    for k := 0 to |values|
      invariant BestOf(seen + FieldHits(item, field, term, fold, k), found, best)
    {
      var kind := ClassifyValue(values[k], term, fold);
      ghost var before := seen + FieldHits(item, field, term, fold, k);
      ghost var after := seen + FieldHits(item, field, term, fold, k + 1);
      if kind.Some? {
        var candidate := Match(field, kind.value);
        ClassifiedKind(values[k], term, fold);
        BestKept(before, found, best, candidate);
        assert after == before + iset{candidate};
        if !found || Better(candidate, best) {
          best := candidate;
        }
        found := true;
      } else {
        assert after == before;
      }
    }
  }

  lemma ClassifiedKind(value: string, term: string, fold: string -> string)
    ensures ClassifyValue(value, term, fold).Some? ==> ClassifyValue(value, term, fold).value in KIND_ORDER
  {
    assert KIND_ORDER[0] == Exact && KIND_ORDER[1] == Prefix && KIND_ORDER[2] == Partial;
  }

  /** The matches the first `n` fields have with a term. */
  ghost function TermHits(item: Item, term: string, fold: string -> string, n: nat): iset<Match>
    requires n <= |FIELD_ORDER|
  {
    iset m: Match | Hit(item, term, fold, m) && exists j :: 0 <= j < n && m.field == FIELD_ORDER[j]
  }

  lemma TermHitsGrow(item: Item, term: string, fold: string -> string, n: nat)
    requires n < |FIELD_ORDER|
    ensures TermHits(item, term, fold, n + 1)
      == TermHits(item, term, fold, n) + FieldHits(item, FIELD_ORDER[n], term, fold, |FieldValues(item, FIELD_ORDER[n])|)
  {
    hide ClassifyValue, Hit;
    var values := FieldValues(item, FIELD_ORDER[n]);
    forall m: Match | m.field == FIELD_ORDER[n]
      ensures Hit(item, term, fold, m) <==> m in FieldHits(item, FIELD_ORDER[n], term, fold, |values|)
    {
      HitIsClassified(item, term, fold, m);
      if Hit(item, term, fold, m) {
        var v :| v in values && ClassifyValue(v, term, fold) == Some(m.kind);
        var k :| 0 <= k < |values| && values[k] == v;
      }
    }
  }

  /** The matches of the first `n` terms. */
  ghost function QueryHits(item: Item, terms: seq<string>, fold: string -> string, n: nat): iset<Match>
    requires n <= |terms|
  {
    iset m: Match | exists i :: 0 <= i < n && Hit(item, fold(terms[i]), fold, m) && m.field in FIELD_ORDER
  }

  method BestForTerm(item: Item, term: string, fold: string -> string, best0: Match, found0: bool, ghost seen: iset<Match>)
    returns (best: Match, found: bool)
    requires BestOf(seen, found0, best0)
    ensures BestOf(seen + TermHits(item, term, fold, |FIELD_ORDER|), found, best)
  {
    hide BestOf, FieldHits, Hit;
    best, found := best0, found0;
    assert seen + TermHits(item, term, fold, 0) == seen;
    for j := 0 to |FIELD_ORDER|
      invariant BestOf(seen + TermHits(item, term, fold, j), found, best)
    {
      TermHitsGrow(item, term, fold, j);
      ghost var before := seen + TermHits(item, term, fold, j);
      ghost var hits := FieldHits(item, FIELD_ORDER[j], term, fold, |FieldValues(item, FIELD_ORDER[j])|);
      assert before + hits == seen + (TermHits(item, term, fold, j) + hits);
      best, found := BestInField(item, FIELD_ORDER[j], term, fold, best, found, before);
    }
  }

  /**
   The best match between an item and the terms of a query: of all terms, fields and
   values, one with the smallest rank.
   */
  method Classify(item: Item, terms: seq<string>, fold: string -> string) returns (best: Match, found: bool)
    ensures found <==> exists m :: HitBy(item, terms, fold, m)
    ensures found ==> HitBy(item, terms, fold, best) && forall m :: HitBy(item, terms, fold, m) ==> RankOf(best) <= RankOf(m)
    ensures found ==> best.field in FIELD_ORDER && best.kind in KIND_ORDER
  {
    hide BestOf, Hit, RankOf;
    best, found := Match(OtherField(""), OtherCloseness("")), false;
    NoneSeen(best);
    ghost var none: iset<Match> := iset{};
    assert QueryHits(item, terms, fold, 0) == none;
    for i := 0 to |terms|
      invariant BestOf(QueryHits(item, terms, fold, i), found, best)
    {
      var term := fold(terms[i]);
      QueryHitsGrow(item, terms, fold, i);
      best, found := BestForTerm(item, term, fold, best, found, QueryHits(item, terms, fold, i));
    }
    BestOfQuery(item, terms, fold, found, best);
  }

  lemma NoneSeen(best: Match)
    ensures BestOf(iset{}, false, best)
  {
  }

  lemma QueryHitsGrow(item: Item, terms: seq<string>, fold: string -> string, n: nat)
    requires n < |terms|
    ensures QueryHits(item, terms, fold, n + 1)
      == QueryHits(item, terms, fold, n) + TermHits(item, fold(terms[n]), fold, |FIELD_ORDER|)
  {
    hide Hit;
  }

  lemma HitField(item: Item, term: string, fold: string -> string, m: Match)
    requires Hit(item, term, fold, m)
    ensures m.field in FIELD_ORDER
  {
    assert FIELD_ORDER[0] == NameField && FIELD_ORDER[1] == AliasField;
    assert FIELD_ORDER[2] == TagField && FIELD_ORDER[3] == DescriptionField;
  }

  lemma BestOfQuery(item: Item, terms: seq<string>, fold: string -> string, found: bool, best: Match)
    requires BestOf(QueryHits(item, terms, fold, |terms|), found, best)
    ensures found <==> exists m :: HitBy(item, terms, fold, m)
    ensures found ==> HitBy(item, terms, fold, best) && forall m :: HitBy(item, terms, fold, m) ==> RankOf(best) <= RankOf(m)
    ensures found ==> best.field in FIELD_ORDER && best.kind in KIND_ORDER
  {
    hide Hit, RankOf;
    forall m ensures m in QueryHits(item, terms, fold, |terms|) <==> HitBy(item, terms, fold, m) {
      if HitBy(item, terms, fold, m) {
        var t :| t in terms && Hit(item, fold(t), fold, m);
        var i :| 0 <= i < |terms| && terms[i] == t;
        HitField(item, fold(t), fold, m);
      }
    }
  }
}
