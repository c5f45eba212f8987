/**
 The LIKE operator of SQLite with a backslash as its escape character: `%` stands for
 any text, `_` for any one character, an escaped character for itself, and ASCII
 letters match in either case.
 */
module Like {
  import opened Text

  predicate SameChar(a: char, b: char) {
    FoldChar(a) == FoldChar(b)
  }

  predicate Matches(pattern: string, text: string)
    decreases |pattern| + |text|
  {
    if pattern == [] then text == []
    else if pattern[0] == '%' then
      Matches(pattern[1..], text) || (text != [] && Matches(pattern, text[1..]))
    else if pattern[0] == '\\' then
      |pattern| > 1 && text != [] && SameChar(pattern[1], text[0]) && Matches(pattern[2..], text[1..])
    else
      text != [] && (pattern[0] == '_' || SameChar(pattern[0], text[0])) && Matches(pattern[1..], text[1..])
  }

  predicate Special(c: char) {
    c == '\\' || c == '%' || c == '_'
  }

  /** A term with the wildcards escaped. */
  function LikeEscape(term: string): string {
    if term == [] then []
    else (if Special(term[0]) then ['\\', term[0]] else [term[0]]) + LikeEscape(term[1..])
  }

  /** The pattern a term is searched with. */
  function Containing(term: string): string {
    "%" + LikeEscape(term) + "%"
  }

  /** The term stands in the text at this position, literally. */
  predicate At(term: string, text: string, i: int) {
    0 <= i <= |text| - |term| && text[i..i + |term|] == term
  }

  predicate Occurs(term: string, text: string) {
    exists i :: 0 <= i <= |text| && At(term, text, i)
  }

  lemma {:induction false} AnythingMatches(text: string)
    ensures Matches("%", text)
    decreases |text|
  {
    if text == [] {
      assert Matches("%"[1..], text);
    } else {
      AnythingMatches(text[1..]);
    }
  }

  lemma {:induction false} MatchesAnywhere(rest: string, text: string)
    ensures Matches("%" + rest, text) <==> exists i :: 0 <= i <= |text| && Matches(rest, text[i..])
    decreases |text|
  {
    var pattern := "%" + rest;
    assert pattern[1..] == rest;
    assert text[0..] == text;
    if text != [] {
      MatchesAnywhere(rest, text[1..]);
      if Matches(pattern, text[1..]) {
        var i :| 0 <= i <= |text[1..]| && Matches(rest, text[1..][i..]);
        assert text[i + 1..] == text[1..][i..];
      }
      if exists i :: 0 < i <= |text| && Matches(rest, text[i..]) {
        var i :| 0 < i <= |text| && Matches(rest, text[i..]);
        assert text[1..][i - 1..] == text[i..];
      }
    }
  }

  /** An escaped term matches just the texts that start with it, ignoring ASCII case. */
  lemma {:induction false} EscapedMatches(term: string, rest: string, text: string)
    ensures Matches(LikeEscape(term) + rest, text) <==>
      |term| <= |text| && ScopeKey(text[..|term|]) == ScopeKey(term) && Matches(rest, text[|term|..])
    decreases |term|
  {
    var pattern := LikeEscape(term) + rest;
    if term == [] {
      assert pattern == rest && text[0..] == text;
    } else {
      var skip := if Special(term[0]) then 2 else 1;
      assert pattern[skip..] == LikeEscape(term[1..]) + rest;
      if text != [] {
        EscapedMatches(term[1..], rest, text[1..]);
        if |term| <= |text| {
          assert text[..|term|] == [text[0]] + text[1..][..|term| - 1];
          assert text[1..][|term| - 1..] == text[|term|..];
          KeyOfCons(text[0], text[1..][..|term| - 1]);
          assert term == [term[0]] + term[1..];
          KeyOfCons(term[0], term[1..]);
          ConsEqual(FoldChar(text[0]), ScopeKey(text[1..][..|term| - 1]), FoldChar(term[0]), ScopeKey(term[1..]));
        }
      }
    }
  }

  lemma KeyOfCons(c: char, rest: string)
    ensures ScopeKey([c] + rest) == [FoldChar(c)] + ScopeKey(rest)
  {
  }

  lemma ConsEqual(a: char, x: string, b: char, y: string)
    ensures [a] + x == [b] + y <==> a == b && x == y
  {
    if [a] + x == [b] + y {
      assert ([a] + x)[0] == ([b] + y)[0] && ([a] + x)[1..] == ([b] + y)[1..];
    }
  }

  lemma EscapedMatchesAt(term: string, text: string, i: int)
    requires 0 <= i <= |text|
    ensures Matches(LikeEscape(term) + "%", text[i..]) <==> At(ScopeKey(term), ScopeKey(text), i)
  {
    hide Matches, LikeEscape;
    EscapedMatches(term, "%", text[i..]);
    if |term| <= |text| - i {
      AnythingMatches(text[i..][|term|..]);
      assert text[i..][..|term|] == text[i..i + |term|];
      assert ScopeKey(text)[i..i + |term|] == ScopeKey(text[i..i + |term|]);
    }
  }

  /** Escaped LIKE is substring search, up to the case of ASCII letters. */
  lemma LikeIsSubstring(term: string, text: string)
    ensures Matches(Containing(term), text) <==> Occurs(ScopeKey(term), ScopeKey(text))
  {
    hide Matches, LikeEscape, At;
    var inner := LikeEscape(term) + "%";
    assert Containing(term) == "%" + inner;
    MatchesAnywhere(inner, text);
    forall i | 0 <= i <= |text| ensures Matches(inner, text[i..]) <==> At(ScopeKey(term), ScopeKey(text), i) {
      EscapedMatchesAt(term, text, i);
    }
    forall i | At(ScopeKey(term), ScopeKey(text), i) ensures 0 <= i <= |text| {
      AtInside(term, text, i);
    }
  }

  lemma AtInside(term: string, text: string, i: int)
    requires At(ScopeKey(term), ScopeKey(text), i)
    ensures 0 <= i <= |text|
  {
  }

  /** Text without capital ASCII letters, as folding leaves it. */
  predicate LowerCase(text: string) {
    ScopeKey(text) == text
  }

  /** On folded text and terms, escaped LIKE is literal substring search. */
  lemma FoldedLikeIsSubstring(term: string, text: string)
    requires LowerCase(term) && LowerCase(text)
    ensures Matches(Containing(term), text) <==> Occurs(term, text)
  {
    LikeIsSubstring(term, text);
  }
}
