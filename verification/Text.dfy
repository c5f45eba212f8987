/**
 The text operations the inventory compares with: trimming, the ASCII folding of
 SQLite's NOCASE, and the code point order of strings. A string is a sequence of
 code points.
 */
module Text {

  /** White space as Unicode defines it, which is what a trim removes. */
  predicate IsSpace(c: char) {
    var n := c as int;
    9 <= n <= 13 || n in {0x20, 0x85, 0xA0, 0x1680, 0x2028, 0x2029, 0x202F, 0x205F, 0x3000} || 0x2000 <= n <= 0x200A
  }

  function TrimLeft(s: string): string {
    if s != [] && IsSpace(s[0]) then TrimLeft(s[1..]) else s
  }

  function TrimRight(s: string): string {
    if s != [] && IsSpace(s[|s| - 1]) then TrimRight(s[..|s| - 1]) else s
  }

  function Trim(s: string): string {
    TrimRight(TrimLeft(s))
  }

  /** No white space at either end. */
  predicate Trimmed(s: string) {
    s == [] || (!IsSpace(s[0]) && !IsSpace(s[|s| - 1]))
  }

  lemma {:induction false} TrimLeftEnds(s: string)
    ensures TrimLeft(s) == [] || !IsSpace(TrimLeft(s)[0])
  {
    if s != [] && IsSpace(s[0]) {
      TrimLeftEnds(s[1..]);
    }
  }

  lemma {:induction false} TrimRightEnds(s: string)
    requires s == [] || !IsSpace(s[0])
    ensures Trimmed(TrimRight(s))
  {
    if s != [] && IsSpace(s[|s| - 1]) {
      TrimRightEnds(s[..|s| - 1]);
    }
  }

  lemma TrimIsTrimmed(s: string)
    ensures Trimmed(Trim(s))
  {
    TrimLeftEnds(s);
    TrimRightEnds(TrimLeft(s));
  }

  /** Trimming changes exactly the texts that have white space at an end. */
  lemma TrimIdentity(s: string)
    ensures Trim(s) == s <==> Trimmed(s)
  {
    TrimIsTrimmed(s);
  }

  lemma TrimTwice(s: string)
    ensures Trim(Trim(s)) == Trim(s)
  {
    TrimIsTrimmed(s);
    TrimIdentity(Trim(s));
  }

  predicate AllSpace(s: string) {
    forall i :: 0 <= i < |s| ==> IsSpace(s[i])
  }

  lemma {:induction false} TrimLeftCuts(s: string) returns (before: string)
    ensures s == before + TrimLeft(s) && AllSpace(before)
  {
    before := "";
    if s != [] && IsSpace(s[0]) {
      before := TrimLeftCuts(s[1..]);
      before := [s[0]] + before;
    }
  }

  lemma {:induction false} TrimRightCuts(s: string) returns (after: string)
    ensures s == TrimRight(s) + after && AllSpace(after)
  {
    after := "";
    if s != [] && IsSpace(s[|s| - 1]) {
      after := TrimRightCuts(s[..|s| - 1]);
      after := after + [s[|s| - 1]];
    }
  }

  /** Trimming cuts off white space at the two ends, and leaves none there. */
  lemma TrimCuts(s: string) returns (before: string, after: string)
    ensures s == before + Trim(s) + after && AllSpace(before) && AllSpace(after) && Trimmed(Trim(s))
  {
    before := TrimLeftCuts(s);
    after := TrimRightCuts(TrimLeft(s));
    TrimIsTrimmed(s);
  }

  function TrimAll(ss: seq<string>): (r: seq<string>)
    ensures |r| == |ss|
    ensures forall i :: 0 <= i < |ss| ==> r[i] == Trim(ss[i])
  {
    seq(|ss|, i requires 0 <= i < |ss| => Trim(ss[i]))
  }

  lemma TrimAllTwice(ss: seq<string>)
    ensures TrimAll(TrimAll(ss)) == TrimAll(ss)
  {
    forall i | 0 <= i < |ss| ensures TrimAll(TrimAll(ss))[i] == TrimAll(ss)[i] {
      TrimTwice(ss[i]);
    }
  }

  /** NOCASE folds the ASCII letters and nothing else. */
  function FoldChar(c: char): char {
    if 'A' <= c <= 'Z' then c - 'A' + 'a' else c
  }

  /** The form the uniqueness rules compare names in. */
  function ScopeKey(name: string): (key: string)
  {
    seq(|name|, i requires 0 <= i < |name| => FoldChar(name[i]))
  }

  /** The same letter, or the same ASCII letter in the other case. */
  predicate SameLetter(c: char, d: char) {
    || c == d
    || ('A' <= c <= 'Z' && d as int == c as int + 32)
    || ('A' <= d <= 'Z' && c as int == d as int + 32)
  }

  /** Two names count as one exactly when they are the same letter by letter, ignoring ASCII case. */
  lemma ScopeKeysMeet(a: string, b: string)
    ensures ScopeKey(a) == ScopeKey(b) <==> |a| == |b| && forall i :: 0 <= i < |a| ==> SameLetter(a[i], b[i])
  {
    if ScopeKey(a) == ScopeKey(b) {
      assert |a| == |ScopeKey(a)| == |ScopeKey(b)| == |b|;
      forall i | 0 <= i < |a| ensures SameLetter(a[i], b[i]) {
        assert ScopeKey(a)[i] == FoldChar(a[i]) && ScopeKey(b)[i] == FoldChar(b[i]);
      }
    }
  }

  lemma ScopeKeyEmpty(name: string)
    ensures ScopeKey(name) == "" <==> name == ""
  {
    assert |ScopeKey(name)| == |name|;
  }

  /** Code point order, the order of both NOCASE and plain string comparison. */
  predicate Less(a: string, b: string) {
    b != [] && (a == [] || a[0] < b[0] || (a[0] == b[0] && Less(a[1..], b[1..])))
  }

  lemma {:induction false} LessIrreflexive(a: string)
    ensures !Less(a, a)
  {
    if a != [] {
      LessIrreflexive(a[1..]);
    }
  }

  lemma {:induction false} LessTransitive(a: string, b: string, c: string)
    requires Less(a, b) && Less(b, c)
    ensures Less(a, c)
  {
    if a != [] && a[0] == b[0] == c[0] {
      LessTransitive(a[1..], b[1..], c[1..]);
    }
  }

  lemma {:induction false} LessTotal(a: string, b: string)
    ensures a == b || Less(a, b) || Less(b, a)
  {
    if a != [] && b != [] && a[0] == b[0] {
      LessTotal(a[1..], b[1..]);
      assert a == [a[0]] + a[1..] && b == [b[0]] + b[1..];
    }
  }
}
