/**
 Marking the matches of a query in a text: a scan that goes from match to match, at
 each step to the leftmost one and there to the longest.
 */
module Highlight {
  import opened Like

  datatype Segment = Segment(text: string, marked: bool)

  /** Where a match starts and ends in the folded text. */
  datatype Mark = Mark(start: nat, end: nat)

  /** A slice clamps its bounds to the text. */
  function Slice(text: string, a: nat, b: nat): string
    requires a <= b
  {
    if b <= |text| then text[a..b] else if a <= |text| then text[a..] else ""
  }

  function Joined(segments: seq<Segment>): string {
    if segments == [] then "" else Joined(segments[..|segments| - 1]) + segments[|segments| - 1].text
  }

  /** The first position from `from` on where the needle stands, or -1. */
  function IndexFrom(lower: string, needle: string, from: nat): (at: int)
    ensures at == -1 || (at >= from && At(needle, lower, at))
    ensures forall k :: from <= k && At(needle, lower, k) ==> at != -1 && at <= k
    decreases |lower| - from
  {
    if from > |lower| then -1 else if At(needle, lower, from) then from else IndexFrom(lower, needle, from + 1)
  }

  function Needles(terms: seq<string>, fold: string -> string): seq<string> {
    if terms == [] then []
    else Needles(terms[..|terms| - 1], fold) + if fold(terms[|terms| - 1]) == "" then [] else [fold(terms[|terms| - 1])]
  }

  lemma {:induction false} NeedlesNotEmpty(terms: seq<string>, fold: string -> string)
    ensures "" !in Needles(terms, fold)
  {
    if terms != [] {
      NeedlesNotEmpty(terms[..|terms| - 1], fold);
    }
  }

  /** The mark covers the longest needle at the leftmost position any needle starts. */
  ghost predicate LeftmostLongest(lower: string, needles: seq<string>, cursor: nat, mark: Mark) {
    && cursor <= mark.start < mark.end
    && (exists n :: n in needles && |n| == mark.end - mark.start && At(n, lower, mark.start))
    && (forall n, k :: n in needles && k >= cursor && At(n, lower, k) ==> mark.start < k || (mark.start == k && |n| <= mark.end - mark.start))
  }

  ghost predicate NoNeedleFrom(lower: string, needles: seq<string>, cursor: nat) {
    forall n, k :: n in needles && k >= cursor ==> !At(n, lower, k)
  }

  /** The end of the last mark. */
  function Reached(marks: seq<Mark>): nat {
    if marks == [] then 0 else marks[|marks| - 1].end
  }

  /** Every mark is the next one from where the one before ended. */
  ghost predicate Chained(lower: string, needles: seq<string>, marks: seq<Mark>) {
    forall i :: 0 <= i < |marks| ==> LeftmostLongest(lower, needles, Reached(marks[..i]), marks[i])
  }

  /** Marks do not go back. */
  ghost predicate GoForward(marks: seq<Mark>) {
    forall i :: 0 <= i < |marks| ==> Reached(marks[..i]) <= marks[i].start <= marks[i].end
  }

  /** The segments up to the last mark: what lies between marks is plain. */
  ghost function Rendered(text: string, marks: seq<Mark>): seq<Segment>
    requires GoForward(marks)
    decreases |marks|
  {
    if marks == [] then []
    else
      var before, last := marks[..|marks| - 1], marks[|marks| - 1];
      assert forall i :: 0 <= i < |before| ==> before[..i] == marks[..i] && before[i] == marks[i];
      Rendered(text, before)
      + (if last.start > Reached(before) then [Segment(Slice(text, Reached(before), last.start), false)] else [])
      + [Segment(Slice(text, last.start, last.end), true)]
  }

  method NextMark(lower: string, needles: seq<string>, cursor: nat) returns (start: int, length: nat)
    requires "" !in needles
    ensures start == -1 ==> NoNeedleFrom(lower, needles, cursor)
    ensures start != -1 ==> start >= 0 && LeftmostLongest(lower, needles, cursor, Mark(start, start + length))
  {
    hide At;
    start, length := -1, 0;
    for i := 0 to |needles|
      invariant start == -1 ==> NoNeedleFrom(lower, needles[..i], cursor)
      invariant start != -1 ==> start >= 0 && LeftmostLongest(lower, needles[..i], cursor, Mark(start, start + length))
    {
      var needle := needles[i];
      assert needles[..i + 1] == needles[..i] + [needle];
      var at := IndexFrom(lower, needle, cursor);
      if at != -1 && (start == -1 || at < start || (at == start && |needle| > length)) {
        start, length := at, |needle|;
      }
    }
    assert needles[..|needles|] == needles;
  }

  /**
   The segments of a text. `marks` are the matches it went through; where there were
   none to look for, the whole text is one plain segment.
   */
  method HighlightSegments(text: string, terms: seq<string>, fold: string -> string)
    returns (segments: seq<Segment>, ghost marks: seq<Mark>)
    ensures Joined(segments) == text
    ensures text == "" || Needles(terms, fold) == [] ==> segments == [Segment(text, false)]
    ensures text != "" && Needles(terms, fold) != [] ==>
      && Chained(fold(text), Needles(terms, fold), marks) && GoForward(marks)
      && (Reached(marks) >= |text| || NoNeedleFrom(fold(text), Needles(terms, fold), Reached(marks)))
      && segments == Rendered(text, marks) + (if Reached(marks) < |text| then [Segment(text[Reached(marks)..], false)] else [])
      && |Flags(segments)| == |text| && forall p :: 0 <= p < |text| ==> (Flags(segments)[p] <==> Covered(marks, p))
  {
    hide LeftmostLongest, NoNeedleFrom, Joined, Rendered, Chained, GoForward, Needles, Flags, Covered;
    marks := [];
    var needles := Needles(terms, fold);
    if text == "" || needles == [] {
      JoinedLast([], Segment(text, false));
      JoinedNone();
      assert "" + text == text && [] + [Segment(text, false)] == [Segment(text, false)];
      return [Segment(text, false)], [];
    }
    NeedlesNotEmpty(terms, fold);
    JoinedNone();
    NothingMarked(text, fold(text), needles);
    var lower := fold(text);
    segments := [];
    var cursor := 0;
    while cursor < |text|
      invariant cursor == Reached(marks) && Chained(lower, needles, marks)
      invariant GoForward(marks) && segments == Rendered(text, marks)
      invariant Joined(segments) == Slice(text, 0, cursor)
      decreases |text| - cursor
    {
      var start, length := NextMark(lower, needles, cursor);
      if start == -1 {
        break;
      }
      ghost var mark := Mark(start, start + length);
      ghost var before := segments;
      MarkAdvances(lower, needles, cursor, mark);
      ChainGrows(lower, needles, marks, mark);
      RenderGrows(text, marks, mark);
      if start > cursor {
        segments := segments + [Segment(Slice(text, cursor, start), false)];
      }
      segments := segments + [Segment(Slice(text, start, start + length), true)];
      JoinGrows(text, before, segments, cursor, mark);
      marks := marks + [mark];
      cursor := start + length;
    }
    MarkedExactly(text, marks);
    if cursor < |text| {
      JoinedLast(segments, Segment(text[cursor..], false));
      SliceRest(text, cursor);
      segments := segments + [Segment(text[cursor..], false)];
    } else {
      SliceAll(text, cursor);
    }
  }

  lemma SliceRest(text: string, cursor: nat)
    requires cursor < |text|
    ensures Slice(text, 0, cursor) + text[cursor..] == text
  {
  }

  lemma SliceAll(text: string, cursor: nat)
    requires cursor >= |text|
    ensures Slice(text, 0, cursor) == text
  {
  }

  lemma NothingMarked(text: string, lower: string, needles: seq<string>)
    ensures Chained(lower, needles, []) && GoForward([]) && Rendered(text, []) == []
  {
  }

  lemma JoinGrows(text: string, before: seq<Segment>, after: seq<Segment>, cursor: nat, mark: Mark)
    requires cursor <= mark.start < mark.end && Joined(before) == Slice(text, 0, cursor)
    requires after == before
      + (if mark.start > cursor then [Segment(Slice(text, cursor, mark.start), false)] else [])
      + [Segment(Slice(text, mark.start, mark.end), true)]
    ensures Joined(after) == Slice(text, 0, mark.end)
  {
    hide Joined, Slice;
    var between := before + if mark.start > cursor then [Segment(Slice(text, cursor, mark.start), false)] else [];
    if mark.start > cursor {
      JoinedLast(before, Segment(Slice(text, cursor, mark.start), false));
      SliceJoin(text, cursor, mark.start);
    } else {
      assert between == before;
    }
    JoinedLast(between, Segment(Slice(text, mark.start, mark.end), true));
    SliceJoin(text, mark.start, mark.end);
  }

  lemma JoinedNone()
    ensures Joined([]) == ""
  {
  }

  lemma JoinedLast(segments: seq<Segment>, last: Segment)
    ensures Joined(segments + [last]) == Joined(segments) + last.text
  {
    assert (segments + [last])[..|segments|] == segments;
  }

  lemma SliceJoin(text: string, a: nat, b: nat)
    requires a <= b
    ensures Slice(text, 0, a) + Slice(text, a, b) == Slice(text, 0, b)
  {
    assert text[0..] == text;
  }

  lemma MarkAdvances(lower: string, needles: seq<string>, cursor: nat, mark: Mark)
    requires LeftmostLongest(lower, needles, cursor, mark)
    ensures cursor <= mark.start < mark.end
  {
  }

  lemma ChainGrows(lower: string, needles: seq<string>, marks: seq<Mark>, mark: Mark)
    requires Chained(lower, needles, marks) && GoForward(marks)
    requires LeftmostLongest(lower, needles, Reached(marks), mark) && Reached(marks) <= mark.start <= mark.end
    ensures Chained(lower, needles, marks + [mark]) && GoForward(marks + [mark])
  {
    hide LeftmostLongest;
    var all := marks + [mark];
    assert all[..|marks|] == marks;
    forall i | 0 <= i < |marks| ensures all[..i] == marks[..i] && all[i] == marks[i] {
    }
  }

  lemma RenderGrows(text: string, marks: seq<Mark>, mark: Mark)
    requires GoForward(marks) && GoForward(marks + [mark]) && Reached(marks) <= mark.start <= mark.end
    ensures Rendered(text, marks + [mark]) == Rendered(text, marks)
      + (if mark.start > Reached(marks) then [Segment(Slice(text, Reached(marks), mark.start), false)] else [])
      + [Segment(Slice(text, mark.start, mark.end), true)]
  {
    assert (marks + [mark])[..|marks|] == marks;
  }

  /** The needles are the terms, folded, that leave something to look for. */
  lemma {:induction false} NeedlesAre(terms: seq<string>, fold: string -> string)
    ensures forall n :: n in Needles(terms, fold) <==> n != "" && exists t :: t in terms && fold(t) == n
    decreases |terms|
  {
    if terms != [] {
      var before, last := terms[..|terms| - 1], terms[|terms| - 1];
      NeedlesAre(before, fold);
      assert terms == before + [last];
      forall n ensures n in Needles(terms, fold) <==> n != "" && exists t :: t in terms && fold(t) == n {
        if n != "" && exists t :: t in terms && fold(t) == n {
          var t :| t in terms && fold(t) == n;
          assert t in before || t == last;
        }
      }
    }
  }

  // ---- Which letters are marked ------------------------------------------------------------------

  /** For every letter of the segments, whether it is in a marked one. */
  function Flags(segments: seq<Segment>): (flags: seq<bool>)
    ensures |flags| == |Joined(segments)|
  {
    if segments == [] then []
    else
      var last := segments[|segments| - 1];
      Flags(segments[..|segments| - 1]) + seq(|last.text|, _ => last.marked)
  }

  /** The letter at this position lies in a match. */
  predicate Covered(marks: seq<Mark>, p: int) {
    exists i :: 0 <= i < |marks| && marks[i].start <= p < marks[i].end
  }

  lemma FlagsLast(segments: seq<Segment>, last: Segment)
    ensures Flags(segments + [last]) == Flags(segments) + seq(|last.text|, _ => last.marked)
    ensures Joined(segments + [last]) == Joined(segments) + last.text
  {
    assert (segments + [last])[..|segments|] == segments;
  }

  lemma NothingAhead(marks: seq<Mark>, p: int)
    requires GoForward(marks) && p >= Reached(marks)
    ensures !Covered(marks, p)
    decreases |marks|
  {
    if marks != [] {
      var before := marks[..|marks| - 1];
      assert forall i :: 0 <= i < |before| ==> before[..i] == marks[..i] && before[i] == marks[i];
      assert Reached(marks[..|marks| - 1]) <= marks[|marks| - 1].start;
      NothingAhead(before, p);
      forall i | 0 <= i < |marks| ensures !(marks[i].start <= p < marks[i].end) {
        assert i < |before| ==> before[i] == marks[i];
      }
    }
  }

  /** The segments are the first `n` letters of the text, and mark those that lie in a match. */
  ghost predicate FlagsFit(text: string, segments: seq<Segment>, n: nat, marks: seq<Mark>) {
    && Joined(segments) == Slice(text, 0, n)
    && forall p :: 0 <= p < |Flags(segments)| ==> (Flags(segments)[p] <==> Covered(marks, p))
  }

  lemma SliceLength(text: string, b: nat)
    ensures |Slice(text, 0, b)| == if b <= |text| then b else |text|
  {
  }

  /** Plain letters up to anywhere behind the last match. */
  lemma GapFits(text: string, segments: seq<Segment>, marks: seq<Mark>, to: nat)
    requires GoForward(marks) && Reached(marks) <= to && FlagsFit(text, segments, Reached(marks), marks)
    ensures FlagsFit(text, segments + [Segment(Slice(text, Reached(marks), to), false)], to, marks)
  {
    hide Joined, Flags, Slice, GoForward, Covered;
    var from := Reached(marks);
    var gap := Segment(Slice(text, from, to), false);
    FlagsLast(segments, gap);
    SliceJoin(text, from, to);
    SliceLength(text, from);
    GapIsPast(text, from, to);
    forall p | from <= p ensures !Covered(marks, p) {
      NothingAhead(marks, p);
    }
  }

  /** What a slice adds lies behind its start. */
  lemma GapIsPast(text: string, from: nat, to: nat)
    requires from <= to
    ensures Slice(text, from, to) != "" ==> |Slice(text, 0, from)| == from
    ensures |Slice(text, from, to)| <= to - from
  {
  }

  lemma MarkFits(text: string, segments: seq<Segment>, marks: seq<Mark>, mark: Mark)
    requires GoForward(marks) && Reached(marks) <= mark.start <= mark.end && FlagsFit(text, segments, mark.start, marks)
    ensures FlagsFit(text, segments + [Segment(Slice(text, mark.start, mark.end), true)], mark.end, marks + [mark])
  {
    hide Joined, Flags, Slice, GoForward, Covered, Reached;
    FlagsLast(segments, Segment(Slice(text, mark.start, mark.end), true));
    SliceJoin(text, mark.start, mark.end);
    SliceLength(text, mark.start);
    GapIsPast(text, mark.start, mark.end);
    forall p | 0 <= p < mark.end ensures Covered(marks + [mark], p) <==> (Covered(marks, p) || mark.start <= p) {
      CoveredMore(marks, mark, p);
    }
  }

  lemma CoveredMore(marks: seq<Mark>, mark: Mark, p: int)
    requires p < mark.end
    ensures Covered(marks + [mark], p) <==> (Covered(marks, p) || mark.start <= p)
  {
    var all := marks + [mark];
    if Covered(marks, p) {
      var i :| 0 <= i < |marks| && marks[i].start <= p < marks[i].end;
      assert all[i] == marks[i];
    }
    if mark.start <= p {
      assert all[|marks|] == mark;
    }
  }

  lemma NothingFits(text: string)
    ensures GoForward([]) && FlagsFit(text, Rendered(text, []), Reached([]), [])
  {
  }

  lemma ForwardLess(before: seq<Mark>, last: Mark)
    requires GoForward(before + [last])
    ensures GoForward(before) && Reached(before) <= last.start <= last.end == Reached(before + [last])
  {
    var marks := before + [last];
    assert marks[..|before|] == before;
    assert forall i :: 0 <= i < |before| ==> before[..i] == marks[..i] && before[i] == marks[i];
  }

  /** As far as the marks reach, a letter is marked just when it lies in a match. */
  lemma {:induction false} RenderedFlags(text: string, marks: seq<Mark>)
    requires GoForward(marks)
    ensures FlagsFit(text, Rendered(text, marks), Reached(marks), marks)
    decreases |marks|
  {
    hide Slice, FlagsFit, Rendered, GoForward, Reached;
    if marks == [] {
      NothingFits(text);
    } else {
      var before, last := marks[..|marks| - 1], marks[|marks| - 1];
      assert marks == before + [last];
      ForwardLess(before, last);
      RenderedFlags(text, before);
      RenderGrows(text, before, last);
      var segments := Rendered(text, before);
      if last.start > Reached(before) {
        GapFits(text, segments, before, last.start);
        segments := segments + [Segment(Slice(text, Reached(before), last.start), false)];
      } else {
        assert segments + [] == segments;
      }
      MarkFits(text, segments, before, last);
    }
  }

  /** In the whole text exactly the letters that lie in a match are marked. */
  lemma MarkedExactly(text: string, marks: seq<Mark>)
    requires GoForward(marks)
    ensures var segments := Rendered(text, marks) + if Reached(marks) < |text| then [Segment(text[Reached(marks)..], false)] else [];
      && Joined(segments) == text && |Flags(segments)| == |text|
      && forall p :: 0 <= p < |text| ==> (Flags(segments)[p] <==> Covered(marks, p))
  {
    hide Joined, Flags, Rendered, Covered;
    var from := Reached(marks);
    RenderedFlags(text, marks);
    if from < |text| {
      GapFits(text, Rendered(text, marks), marks, |text|);
      assert text[from..] == Slice(text, from, |text|) && Slice(text, 0, |text|) == text;
    } else {
      SliceAll(text, from);
      assert Rendered(text, marks) + [] == Rendered(text, marks);
    }
  }

  // ---- What the marks are in the text ----------------------------------------------------------

  /** Folding the slice of the text is slicing the folded text. */
  ghost predicate FoldsInPlace(text: string, fold: string -> string, a: nat, b: nat) {
    a <= b <= |text| && b <= |fold(text)| && fold(text[a..b]) == fold(text)[a..b]
  }

  /**
   Every mark covers a needle of the folded text, no needle starts in the gap before it,
   and none that starts where it starts is longer. Where folding makes the text no longer
   the mark lies within it, and where it works slice by slice the marked segment itself
   folds to that needle.
   */
  lemma MarksFoldToNeedles(text: string, terms: seq<string>, fold: string -> string, marks: seq<Mark>, i: nat)
    requires Chained(fold(text), Needles(terms, fold), marks) && i < |marks|
    ensures var m, from, lower := marks[i], Reached(marks[..i]), fold(text);
      && from <= m.start < m.end <= |lower|
      && lower[m.start..m.end] in Needles(terms, fold)
      && (forall n, k :: n in Needles(terms, fold) && from <= k < m.start ==> !At(n, lower, k))
      && (forall n :: n in Needles(terms, fold) && At(n, lower, m.start) ==> |n| <= m.end - m.start)
      && (|lower| <= |text| ==> m.end <= |text|)
      && (FoldsInPlace(text, fold, m.start, m.end) ==> fold(Slice(text, m.start, m.end)) in Needles(terms, fold))
  {
    hide Needles;
    var m := marks[i];
    assert LeftmostLongest(fold(text), Needles(terms, fold), Reached(marks[..i]), m);
    var n :| n in Needles(terms, fold) && |n| == m.end - m.start && At(n, fold(text), m.start);
    assert fold(text)[m.start..m.end] == n;
  }
}
