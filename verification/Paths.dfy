/**
 Paths as text: names joined by " > ", and the folded key a path is looked up by.
 Folding is a parameter; what a proof needs of it is said where it is needed.
 */
module Paths {
  import opened Text

  /** The pieces of a text between the separators, empty ones included. */
  function Split(s: string, c: char): (pieces: seq<string>)
    ensures |pieces| > 0
  {
    if s == [] then [""]
    else if s[0] == c then [""] + Split(s[1..], c)
    else [[s[0]] + Split(s[1..], c)[0]] + Split(s[1..], c)[1..]
  }

  function Join(parts: seq<string>, separator: string): string {
    if parts == [] then ""
    else if |parts| == 1 then parts[0]
    else parts[0] + separator + Join(parts[1..], separator)
  }

  function FoldAll(parts: seq<string>, fold: string -> string): (r: seq<string>)
    ensures |r| == |parts| && forall i :: 0 <= i < |r| ==> r[i] == fold(parts[i])
  {
    seq(|parts|, i requires 0 <= i < |parts| => fold(parts[i]))
  }

  /** Two paths have one key when they differ in case, accents or spacing only. */
  function PathKey(path: string, fold: string -> string): string {
    Join(FoldAll(TrimAll(Split(path, '>')), fold), ">")
  }

  function PathText(names: seq<string>): string {
    Join(names, " > ")
  }

  /** A name as the store keeps it. */
  predicate KeptName(name: string) {
    name != "" && Trimmed(name)
  }

  predicate KeptNames(names: seq<string>) {
    forall i :: 0 <= i < |names| ==> KeptName(names[i])
  }

  /** A name that, besides, does not look like a path. */
  predicate PlainName(name: string) {
    KeptName(name) && '>' !in name
  }

  predicate PlainNames(names: seq<string>) {
    forall i :: 0 <= i < |names| ==> PlainName(names[i])
  }

  predicate WithoutSeparator(parts: seq<string>) {
    forall i :: 0 <= i < |parts| ==> '>' !in parts[i]
  }

  lemma {:induction false} SplitOne(a: string, c: char)
    requires c !in a
    ensures Split(a, c) == [a]
  {
    if a != [] {
      SplitOne(a[1..], c);
      assert a == [a[0]] + a[1..];
    }
  }

  lemma {:induction false} SplitFirst(a: string, rest: string, c: char)
    requires c !in a
    ensures Split(a + [c] + rest, c) == [a] + Split(rest, c)
  {
    var s := a + [c] + rest;
    if a == [] {
      assert s[1..] == rest;
    } else {
      assert s[1..] == a[1..] + [c] + rest;
      SplitFirst(a[1..], rest, c);
      assert a == [a[0]] + a[1..];
    }
  }

  /** Joining pieces without the separator can be taken back. */
  lemma {:induction false} SplitJoin(parts: seq<string>)
    requires parts != [] && WithoutSeparator(parts)
    ensures Split(Join(parts, ">"), '>') == parts
  {
    if |parts| == 1 {
      SplitOne(parts[0], '>');
    } else {
      SplitFirst(parts[0], Join(parts[1..], ">"), '>');
      SplitJoin(parts[1..]);
    }
  }

  lemma JoinInjective(a: seq<string>, b: seq<string>)
    requires a != [] && b != [] && WithoutSeparator(a) && WithoutSeparator(b)
    ensures Join(a, ">") == Join(b, ">") ==> a == b
  {
    SplitJoin(a);
    SplitJoin(b);
  }

  lemma TrimPadded(name: string, before: string, after: string)
    requires PlainName(name) && (before == "" || before == " ") && (after == "" || after == " ")
    ensures Trim(before + name + after) == name
  {
    var padded := before + name + after;
    assert padded[|before|..] == name + after;
    assert (name + after)[..|name|] == name;
    TrimIdentity(name);
    assert TrimLeft(name) == name;
    assert TrimLeft(name + after) == name + after;
    assert TrimLeft(padded) == name + after;
    assert TrimRight(name + after) == name;
  }

  /** Splitting a rendered path at the separators and trimming gives the names. */
  lemma {:induction false} PathSplits(names: seq<string>, before: string)
    requires names != [] && PlainNames(names) && (before == "" || before == " ")
    ensures TrimAll(Split(before + PathText(names), '>')) == names
  {
    hide TrimLeft, TrimRight, Trimmed, IsSpace;
    if |names| == 1 {
      SplitOne(before + names[0], '>');
      TrimPadded(names[0], before, "");
      assert before + names[0] + "" == before + names[0];
    } else {
      var rest := PathText(names[1..]);
      var first := before + names[0] + " ";
      assert before + PathText(names) == first + ">" + (" " + rest);
      SplitFirst(first, " " + rest, '>');
      PathSplits(names[1..], " ");
      TrimPadded(names[0], before, " ");
      var tail := Split(" " + rest, '>');
      assert TrimAll([first] + tail) == [names[0]] + TrimAll(tail);
    }
  }

  /** The key of a rendered path is made of the folded names. */
  lemma KeyOfPath(names: seq<string>, fold: string -> string)
    requires names != [] && PlainNames(names)
    ensures PathKey(PathText(names), fold) == Join(FoldAll(names, fold), ">")
  {
    PathSplits(names, "");
    assert "" + PathText(names) == PathText(names);
  }

  lemma {:induction false} PathEnds(names: seq<string>)
    requires names != [] && KeptNames(names)
    ensures |PathText(names)| > 0 && PathText(names)[0] == names[0][0]
    ensures PathText(names)[|PathText(names)| - 1] == names[|names| - 1][|names[|names| - 1]| - 1]
  {
    if |names| > 1 {
      PathEnds(names[1..]);
    }
  }

  /** A rendered path is trimmed already. */
  lemma PathIsTrimmed(names: seq<string>)
    requires names != [] && KeptNames(names)
    ensures PathText(names) != "" && Trim(PathText(names)) == PathText(names)
  {
    PathEnds(names);
    TrimIdentity(PathText(names));
  }

  lemma KeyOfName(name: string, fold: string -> string)
    requires '>' !in name
    ensures PathKey(name, fold) == fold(Trim(name))
  {
    SplitOne(name, '>');
  }

  lemma KeyHasSeparator(parts: seq<string>)
    requires |parts| > 1
    ensures '>' in Join(parts, ">")
  {
    assert Join(parts, ">")[|parts[0]|] == '>';
  }

  // ---- What the text and the key of a path are ------------------------------------------------

  /** A path is its names with " > " between them. */
  lemma {:induction false} PathGrows(names: seq<string>, name: string)
    ensures PathText([name]) == name
    ensures names != [] ==> PathText(names + [name]) == PathText(names) + " > " + name
  {
    if |names| == 1 {
      assert (names + [name])[1..] == [name];
    } else if names != [] {
      PathGrows(names[1..], name);
      assert (names + [name])[1..] == names[1..] + [name];
    }
  }

  lemma FirstOfBoth(x: seq<string>, y: seq<string>, c: char)
    requires x != []
    ensures [[c] + (x + y)[0]] + (x + y)[1..] == ([[c] + x[0]] + x[1..]) + y
    ensures [""] + (x + y) == ([""] + x) + y
  {
  }

  lemma SplitStep(s: string, c: char)
    requires s != []
    ensures Split(s, c) == if s[0] == c then [""] + Split(s[1..], c) else [[s[0]] + Split(s[1..], c)[0]] + Split(s[1..], c)[1..]
  {
  }

  lemma {:induction false} SplitAppend(a: string, b: string, c: char)
    ensures Split(a + [c] + b, c) == Split(a, c) + Split(b, c)
    decreases |a|
  {
    hide Split;
    var s := a + [c] + b;
    SplitStep(s, c);
    if a == [] {
      SplitNothing(c);
      assert s[1..] == b;
    } else {
      SplitStep(a, c);
      assert s[0] == a[0] && s[1..] == a[1..] + [c] + b;
      SplitAppend(a[1..], b, c);
      FirstOfBoth(Split(a[1..], c), Split(b, c), a[0]);
    }
  }

  lemma SplitNothing(c: char)
    ensures Split("", c) == [""]
  {
  }

  lemma {:induction false} JoinAppend(a: seq<string>, b: seq<string>, separator: string)
    requires a != [] && b != []
    ensures Join(a + b, separator) == Join(a, separator) + separator + Join(b, separator)
  {
    if |a| == 1 {
      assert (a + b)[1..] == b;
    } else {
      assert (a + b)[1..] == a[1..] + b;
      JoinAppend(a[1..], b, separator);
    }
  }

  /**
   The key of a path is put together from the keys of its parts, and a part without a
   separator has its folded trimmed text for a key: spacing around separators and at the
   ends never decides.
   */
  lemma PathKeyParts(a: string, b: string, fold: string -> string)
    ensures PathKey(a + ">" + b, fold) == PathKey(a, fold) + ">" + PathKey(b, fold)
    ensures '>' !in a ==> PathKey(a, fold) == fold(Trim(a))
  {
    hide Split, Join, Trim;
    SplitAppend(a, b, '>');
    var x, y := Split(a, '>'), Split(b, '>');
    assert FoldAll(TrimAll(x + y), fold) == FoldAll(TrimAll(x), fold) + FoldAll(TrimAll(y), fold);
    JoinAppend(FoldAll(TrimAll(x), fold), FoldAll(TrimAll(y), fold), ">");
    if '>' !in a {
      KeyOfName(a, fold);
    }
  }
}
