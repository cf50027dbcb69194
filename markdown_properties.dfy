/**
 * What `MarkdownParser.parse` promises about its output: the top-level
 * elements tile the input in order, the element of each match has the shape
 * its group prescribes, every element tree is well formed, and `clear` never
 * lengthens its input.
 */
module MarkdownProperties {
  import opened Wrappers
  import opened Chars
  import opened MarkdownRules
  import opened MarkdownParser

  // ---------------------------------------------------------------------------
  // The top level: gaps and matches tile the input.
  // ---------------------------------------------------------------------------

  /**
   * `seg` is a nonempty piece starting at `from`; a gap holds no match and is
   * followed by a match or by the end of the input (`nextFound`).
   */
  predicate PieceAt(s: string, from: nat, seg: Segment, nextFound: bool) {
    && Lo(seg) == from && from < Hi(seg) <= |s|
    && (seg.Gap? ==> Hi(seg) <= |s| && NoMatchBetween(s, from, Hi(seg)) && nextFound)
  }

  /** `segs` cuts `s[from..]` into consecutive pieces, each starting where the previous one ended. */
  predicate Covers(s: string, from: nat, segs: seq<Segment>)
    requires from <= |s|
    decreases |segs|
  {
    if segs == [] then from == |s|
    else PieceAt(s, from, segs[0], |segs| == 1 || segs[1].Found?) && Covers(s, Hi(segs[0]), segs[1..])
  }

  /** A piece in front of a tiling of the rest extends the tiling. */
  lemma CoversCons(s: string, from: nat, seg: Segment, rest: seq<Segment>)
    requires PieceAt(s, from, seg, rest == [] || rest[0].Found?)
    requires Covers(s, Hi(seg), rest)
    ensures Covers(s, from, [seg] + rest)
  {
    assert ([seg] + rest)[1..] == rest;
  }

  /** The text after the last match, if any, tiles the end of the input. */
  lemma CoversTail(s: string, from: nat)
    requires from <= |s| && NoMatchBetween(s, from, |s|)
    ensures Covers(s, from, GapBefore(from, |s|))
  {
    if from < |s| {
      CoversCons(s, from, Gap(from, |s|), []);
    }
  }

  /** The gap before the first match, the match, then the pieces after the match. */
  lemma {:induction false} GapFoundCover(s: string, from: nat, m: Match)
    requires from <= |s| && FirstMatch(s, from) == Some(m)
    ensures Covers(s, from, GapBefore(from, m.start) + [Found(m)] + Segments(s, m.end))
    decreases |s| - from, 0
  {
    MatchShaped(s, m);
    SegmentsCover(s, m.end);
    GapFoundCons(s, from, m, Segments(s, m.end));
  }

  /** A match-free gap, then a match, in front of a tiling of the rest extend the tiling. */
  lemma GapFoundCons(s: string, from: nat, m: Match, rest: seq<Segment>)
    requires from <= m.start < m.end <= |s| && NoMatchBetween(s, from, m.start)
    requires Covers(s, m.end, rest)
    ensures Covers(s, from, GapBefore(from, m.start) + [Found(m)] + rest)
  {
    CoversCons(s, m.start, Found(m), rest);
    if from < m.start {
      CoversCons(s, from, Gap(from, m.start), [Found(m)] + rest);
      assert GapBefore(from, m.start) + [Found(m)] + rest == [Gap(from, m.start)] + ([Found(m)] + rest);
    } else {
      assert GapBefore(from, m.start) + [Found(m)] + rest == [Found(m)] + rest;
    }
  }

  /** The pieces `findElements` works through tile the input from the cursor to the end. */
  lemma {:induction false} SegmentsCover(s: string, from: nat)
    requires from <= |s|
    ensures Covers(s, from, Segments(s, from))
    decreases |s| - from, 1
  {
    var found := FirstMatch(s, from);
    if found.None? {
      CoversTail(s, from);
    } else {
      SegmentsUnfold(s, from, found.value);
      GapFoundCover(s, from, found.value);
    }
  }

  /** The outcomes of building each piece, in order. */
  function Builds(s: string, segs: seq<Segment>): seq<Result<Element, ParseError>>
    requires forall k :: 0 <= k < |segs| ==> SegmentOK(s, segs[k])
  {
    if segs == [] then [] else [BuildSegment(s, segs[0])] + Builds(s, segs[1..])
  }

  /** Collecting outcomes in order: the first error, or all the elements. */
  function Collect(rs: seq<Result<Element, ParseError>>): Parsed {
    if rs == [] then Success([]) else Concat(Single(rs[0]), Collect(rs[1..]))
  }

  /** Building all pieces is collecting the outcome of each piece. */
  lemma {:induction false} BuildAllCollects(s: string, segs: seq<Segment>)
    requires forall k :: 0 <= k < |segs| ==> SegmentOK(s, segs[k])
    ensures |Builds(s, segs)| == |segs|
    ensures forall k :: 0 <= k < |segs| ==> Builds(s, segs)[k] == BuildSegment(s, segs[k])
    ensures BuildAll(s, segs) == Collect(Builds(s, segs))
    decreases |segs|
  {
    if segs != [] {
      BuildAllCollects(s, segs[1..]);
      assert Builds(s, segs)[1..] == Builds(s, segs[1..]);
    }
  }

  /** Collecting succeeds exactly when every outcome does, and then yields one element per outcome. */
  lemma {:induction false} CollectSuccess(rs: seq<Result<Element, ParseError>>)
    ensures Collect(rs).Success? <==> forall k :: 0 <= k < |rs| ==> rs[k].Success?
    ensures Collect(rs).Success? ==> |Collect(rs).value| == |rs| && forall k :: 0 <= k < |rs| ==> rs[k] == Success(Collect(rs).value[k])
  {
    if rs != [] {
      CollectSuccess(rs[1..]);
      assert forall k :: 0 < k < |rs| ==> rs[k] == rs[1..][k - 1];
      if Collect(rs).Success? {
        assert Collect(rs).value == [rs[0].value] + Collect(rs[1..]).value;
      }
    }
  }

  /** A failed collection carries the error of the first failing outcome. */
  lemma {:induction false} CollectFailure(rs: seq<Result<Element, ParseError>>)
    ensures Collect(rs).Failure? ==>
      exists k :: 0 <= k < |rs| && rs[k] == Failure(Collect(rs).error) && forall j :: 0 <= j < k ==> rs[j].Success?
  {
    if rs != [] && Collect(rs).Failure? && rs[0].Success? {
      CollectFailure(rs[1..]);
      var k :| 0 <= k < |rs[1..]| && rs[1..][k] == Failure(Collect(rs[1..]).error)
        && forall j :: 0 <= j < k ==> rs[1..][j].Success?;
      assert rs[k + 1] == rs[1..][k];
      assert forall j :: 0 < j <= k ==> rs[j] == rs[1..][j - 1];
    }
  }

  /**
   * Building the pieces succeeds exactly when every piece builds, and then
   * holds one element per piece, in order; a failure carries the error of
   * the first piece that fails to build.
   */
  lemma BuildAllShape(s: string, segs: seq<Segment>)
    requires forall k :: 0 <= k < |segs| ==> SegmentOK(s, segs[k])
    ensures BuildAll(s, segs).Success? <==> forall k :: 0 <= k < |segs| ==> BuildSegment(s, segs[k]).Success?
    ensures BuildAll(s, segs).Success? ==>
      (&& |BuildAll(s, segs).value| == |segs|
       && forall k :: 0 <= k < |segs| ==> BuildSegment(s, segs[k]) == Success(BuildAll(s, segs).value[k]))
    ensures BuildAll(s, segs).Failure? ==>
      exists k :: (&& 0 <= k < |segs|
                   && BuildSegment(s, segs[k]) == Failure(BuildAll(s, segs).error)
                   && forall j :: 0 <= j < k ==> BuildSegment(s, segs[j]).Success?)
  {
    BuildAllCollects(s, segs);
    CollectSuccess(Builds(s, segs));
    CollectFailure(Builds(s, segs));
  }

  /** Empty input gives no elements. */
  lemma TokenizeEmpty()
    ensures Tokenize([]) == Success([])
  {
    assert Segments([], 0) == [];
  }

  /** Input in which the composite pattern matches nowhere gives exactly one `Text`: the whole input. */
  lemma {:induction false} TokenizeNoMatch(s: string)
    requires s != []
    requires forall i :: 0 <= i < |s| ==> RuleAt(s, i).None?
    ensures Tokenize(s) == Success([Text(s)])
  {
    BuildGap(s, 0, |s|);
    assert s[0..|s|] == s;
    assert Segments(s, 0) == GapBefore(0, |s|);
  }

  // ---------------------------------------------------------------------------
  // The element of one match.
  // ---------------------------------------------------------------------------

  /**
   * The eight groups whose text is parsed again: the element is the group's
   * variant, its text is the match without the group's delimiters (strictly
   * shorter than the match), and its sub-elements are what parsing that text
   * gives; it fails exactly when parsing the text fails.
   */
  lemma RecursingElement(s: string, m: Match)
    requires Shaped(s, m) && Recurses(m.group)
    ensures BuildElement(s, m).Success? <==> Tokenize(Inner(s, m)).Success?
    ensures BuildElement(s, m).Success? ==> var e := BuildElement(s, m).value;
      && GroupOf(e) == m.group
      && e.text == Inner(s, m)
      && |e.text| < m.end - m.start
      && Tokenize(e.text) == Success(e.elements)
    ensures BuildElement(s, m).Failure? ==> BuildElement(s, m).error == Tokenize(Inner(s, m)).error
  {
    assert BuildElement(s, m) == WithElements(Shell(s, m, Inner(s, m)), Tokenize(Inner(s, m)));
  }

  /**
   * An ordered item's `order` is its match up to the last non-letter; when
   * everything after `N. ` is letters, that is exactly the `N.` marker.
   */
  lemma {:induction false} OrderedItemOrder(s: string, m: Match)
    requires Shaped(s, m) && m.group == 10 && BuildElement(s, m).Success?
    ensures var span := s[m.start..m.end]; var e := BuildElement(s, m).value;
      && e.OrderedListItem?
      && e.order == span[..LastNonLetter(span)]
      && ((forall k :: m.start + 3 <= k < m.end ==> IsLetter(s[k])) && s[m.start + 2] == ' ' ==> e.order == span[..2])
  {
    var shell := Shell(s, m, Inner(s, m));
    OrderedShell(s, m, Inner(s, m));
    assert BuildElement(s, m) == WithElements(shell, Tokenize(Inner(s, m)));
    WithElementsKeepsOrder(shell, Tokenize(Inner(s, m)));
  }

  /** The shell of an ordered item carries the match up to its last non-letter as its `order`. */
  lemma OrderedShell(s: string, m: Match, text: string)
    requires Shaped(s, m) && m.group == 10
    ensures var span := s[m.start..m.end]; var e := Shell(s, m, text);
      && e.OrderedListItem?
      && 0 <= LastNonLetter(span)
      && e.order == span[..LastNonLetter(span)]
      && ((forall k :: m.start + 3 <= k < m.end ==> IsLetter(s[k])) && s[m.start + 2] == ' ' ==> e.order == span[..2])
  {
    var span := s[m.start..m.end];
    assert !IsLetter(span[0]);
    LettersAfterMarker(s, m.start, m.end);
  }

  /** When only letters follow `N. ` in `s[st..en]`, the last non-letter of that span is the marker's space. */
  lemma LettersAfterMarker(s: string, st: nat, en: nat)
    requires st + 3 <= en <= |s|
    ensures (forall k :: st + 3 <= k < en ==> IsLetter(s[k])) && s[st + 2] == ' ' ==> LastNonLetter(s[st..en]) == 2
  {
    var span := s[st..en];
    if (forall k :: st + 3 <= k < en ==> IsLetter(s[k])) && s[st + 2] == ' ' {
      forall k | 2 < k < |span| ensures IsLetter(span[k]) {
        assert span[k] == s[st + k];
      }
      LastNonLetterIsMarker(span);
    }
  }

  /** Finding the sub-elements of an ordered item keeps its `order`. */
  lemma WithElementsKeepsOrder(shell: Element, subs: Parsed)
    requires shell.OrderedListItem? && subs.Success?
    ensures WithElements(shell, subs).Success? && WithElements(shell, subs).value.OrderedListItem?
    ensures WithElements(shell, subs).value.order == shell.order
  {
  }

  /** Only letters after the space of `N. `: the last non-letter is that space. */
  lemma LastNonLetterIsMarker(span: string)
    requires |span| >= 3 && span[2] == ' '
    requires forall k :: 2 < k < |span| ==> IsLetter(span[k])
    ensures LastNonLetter(span) == 2
  {
    assert !IsLetter(span[2]);
  }

  /**
   * Headers, rules, links and images have no sub-elements. A header's level
   * is its `#` run (1 to 6) and its text starts one char past that run; a
   * rule's text is a single space; a link and an image take their fields
   * from the inner pattern, and the only failures are those inner patterns
   * not matching the span.
   */
  lemma LeafElement(s: string, m: Match)
    requires Shaped(s, m) && !Recurses(m.group)
    ensures var span := s[m.start..m.end]; var r := BuildElement(s, m);
      && (r.Failure? <==> (m.group == 9 && LinkParts(span).None?) || (m.group == 12 && ImageParts(span).None?))
      && (r.Failure? && m.group == 9 ==> r.error == LinkNotDecomposed(span))
      && (r.Failure? && m.group == 12 ==> r.error == ImageNotDecomposed(span))
      && (r.Success? ==> GroupOf(r.value) == m.group && r.value.elements == [])
      && (r.Success? && m.group == 2 ==> var level := HashRun(s, m.start);
            && 1 <= level <= 6 && r.value.level == level && r.value.text == s[m.start + level + 1..m.end])
      && (m.group == 7 ==> r == Success(Rule(" ", [])))
      && (r.Success? && m.group == 9 ==> LinkParts(span) == Some((r.value.text, r.value.link)))
      && (r.Success? && m.group == 12 ==> var (alt, link, title) := ImageParts(span).value;
            && r.value.alt == (if alt == [] then None else Some(alt))
            && r.value.url == Trim(link)
            && r.value.text == Unquote(title))
  {
    if m.group == 2 {
      HashRunOfSlice(s, m.start, m.end, 0);
    }
  }

  /**
   * The title's `(.*)` is greedy: in `[a](x](y)` it runs past the first `](`
   * to the last one that a `)` follows, so the title is `a](x` and the link
   * is `y`.
   */
  lemma LinkPartsGreedy()
    ensures LinkParts("[a](x](y)") == Some(("a](x", "y"))
  {
    var t := "[a](x](y)";
    assert NextLineEnd(t, 1) == 9;
    assert LastParenBefore(t, 7, NextLineEnd(t, 7)) == Some(8);
    assert LinkSplitAt(t, 5);
    assert LinkSplit(t, 1, 9) == Some((5, 8));
    assert LinkOpenAt(t, 0) == Some((5, 8));
    assert LinkStart(t, 0) == Some(0);
    assert t[1..5] == "a](x" && t[7..8] == "y";
  }

  // ---------------------------------------------------------------------------
  // Whole trees.
  // ---------------------------------------------------------------------------

  /** The variants that are never parsed again. */
  predicate IsLeaf(e: Element) {
    e.Text? || e.Header? || e.Rule? || e.Link? || e.Image?
  }

  /** Every `Text` in the tree is nonempty, and leaves have no sub-elements. */
  predicate WellFormed(e: Element)
    decreases e
  {
    && (e.Text? ==> e.text != [])
    && (IsLeaf(e) ==> e.elements == [])
    && forall k :: 0 <= k < |e.elements| ==> WellFormed(e.elements[k])
  }

  /** Every tree `findElements` returns is well formed, at every depth. */
  lemma {:induction false} TokenizeWellFormed(s: string)
    ensures Tokenize(s).Success? ==> forall k :: 0 <= k < |Tokenize(s).value| ==> WellFormed(Tokenize(s).value[k])
    decreases |s|, 2
  {
    if Tokenize(s).Success? {
      var segs := Segments(s, 0);
      var els := Tokenize(s).value;
      BuildAllShape(s, segs);
      forall k | 0 <= k < |els|
        ensures WellFormed(els[k])
      {
        SegmentWellFormed(s, segs[k]);
      }
    }
  }

  /** The element one segment builds is well formed, at every depth. */
  lemma {:induction false} SegmentWellFormed(s: string, seg: Segment)
    requires SegmentOK(s, seg)
    ensures BuildSegment(s, seg).Success? ==> WellFormed(BuildSegment(s, seg).value)
    decreases |s|, 1
  {
    match seg
    case Gap(lo, hi) =>
    case Found(m) =>
      if Recurses(m.group) {
        RecursingWellFormed(s, m);
      } else {
        LeafWellFormed(s, m);
      }
  }

  /** An element with children is well formed when the tree of its inner text is. */
  lemma {:induction false} RecursingWellFormed(s: string, m: Match)
    requires Shaped(s, m) && Recurses(m.group)
    ensures BuildElement(s, m).Success? ==> WellFormed(BuildElement(s, m).value)
    decreases |s|, 0
  {
    RecursingElement(s, m);
    var r := BuildElement(s, m);
    if r.Success? {
      var e := r.value;
      TokenizeWellFormed(e.text);
      assert forall k :: 0 <= k < |e.elements| ==> WellFormed(e.elements[k]);
    }
  }

  /** A leaf element carries no children, and its text is not empty when it is a `Text`. */
  lemma LeafWellFormed(s: string, m: Match)
    requires Shaped(s, m) && !Recurses(m.group)
    ensures BuildElement(s, m).Success? ==> WellFormed(BuildElement(s, m).value)
  {
    LeafElement(s, m);
  }

  // ---------------------------------------------------------------------------
  // `clear`.
  // ---------------------------------------------------------------------------

  lemma {:induction false} JoinPlainAppend(a: seq<Element>, b: seq<Element>)
    ensures JoinPlain(a + b) == JoinPlain(a) + JoinPlain(b)
    decreases |a|
  {
    if a != [] {
      assert (a + b)[1..] == a[1..] + b;
      JoinPlainAppend(a[1..], b);
    } else {
      assert a + b == b;
    }
  }

  /** The plain text of a match's element is no longer than the match. */
  lemma ElementWithin(s: string, m: Match)
    requires Shaped(s, m)
    ensures BuildElement(s, m).Success? ==> |PlainText(BuildElement(s, m).value)| <= m.end - m.start
  {
    var span := s[m.start..m.end];
    if Recurses(m.group) {
      RecursingElement(s, m);
    } else {
      LeafElement(s, m);
      if m.group == 9 && LinkParts(span).Some? {
        var o :| LinkFramedAt(span, o, LinkParts(span).value.0, LinkParts(span).value.1);
      } else if m.group == 12 && ImageParts(span).Some? {
        var (alt, link, title) := ImageParts(span).value;
        assert |Unquote(title)| <= |title|;
      }
    }
  }

  /** The `Text` for a gap contributes the gap's length. */
  lemma GapPlain(s: string, lo: nat, start: nat)
    requires lo <= start <= |s|
    ensures |JoinPlain(GapText(s, lo, start))| == start - lo
  {
    if lo < start {
      assert [Text(s[lo..start])][1..] == [];
    }
  }

  /** The plain text of a gap, an element and the rest, one after the other. */
  lemma {:induction false} PlainOfPieces(gap: seq<Element>, e: Element, tail: seq<Element>)
    ensures |JoinPlain(gap + ([e] + tail))| == |JoinPlain(gap)| + |PlainText(e)| + |JoinPlain(tail)|
  {
    JoinPlainAppend(gap, [e] + tail);
    assert ([e] + tail)[1..] == tail;
  }

  /** The plain text of what `findElements` builds from `s[from..]` is no longer than that suffix. */
  lemma {:induction false} PlainWithin(s: string, from: nat)
    requires from <= |s|
    ensures BuildAll(s, Segments(s, from)).Success? ==> |JoinPlain(BuildAll(s, Segments(s, from)).value)| <= |s| - from
    decreases |s| - from
  {
    match FirstMatch(s, from)
    case None =>
      SegmentsEnd(s, from, []);
      ConcatEmpty(BuildAll(s, Segments(s, from)));
      assert [] + GapText(s, from, |s|) == GapText(s, from, |s|);
      GapPlain(s, from, |s|);
    case Some(m) =>
      MatchShaped(s, m);
      var rest := Segments(s, m.end);
      LoopStep(s, from, [], m);
      ConcatEmpty(BuildAll(s, Segments(s, from)));
      assert [] + GapText(s, from, m.start) == GapText(s, from, m.start);
      if BuildAll(s, Segments(s, from)).Success? {
        var e := BuildElement(s, m).value;
        var tail := BuildAll(s, rest).value;
        assert BuildAll(s, Segments(s, from)).value == GapText(s, from, m.start) + ([e] + tail);
        PlainOfPieces(GapText(s, from, m.start), e, tail);
        GapPlain(s, from, m.start);
        ElementWithin(s, m);
        PlainWithin(s, m.end);
      }
  }

  /** `clear` never gives a string longer than its input. */
  lemma ClearWithin(s: string)
    ensures Clear(s).Success? ==> |Clear(s).value| <= |s|
  {
    PlainWithin(s, 0);
  }

  /** `clear` of input in which the composite pattern matches nowhere is the input itself. */
  lemma ClearNoMatch(s: string)
    requires forall i :: 0 <= i < |s| ==> RuleAt(s, i).None?
    ensures Clear(s) == Success(s)
  {
    if s == [] {
      TokenizeEmpty();
    } else {
      TokenizeNoMatch(s);
      assert [Text(s)][1..] == [];
      assert JoinPlain([Text(s)]) == s;
    }
  }

  // ---------------------------------------------------------------------------
  // Group 7: the class `[*-_]` is a range.
  // ---------------------------------------------------------------------------

  /**
   * As written, the rule group accepts a line of three capital letters: `A`,
   * `B` and `C` lie between `*` and `_`. The composite matcher, which uses
   * the class as written, matches them; the corrected class rejects them.
   */
  lemma RuleRangeAdmitsLetters()
    ensures RuleLineAsWrittenAt("ABC", 0) == Some(3)
    ensures MatchRule("ABC", 0, 7) == Some(3)
    ensures RuleLineAt("ABC", 0).None?
  {
  }

  /**
   * So the parser turns the text `ABC` into a horizontal rule, and `clear`
   * turns it into a single space.
   */
  lemma LetterLineIsRule()
    ensures Tokenize("ABC") == Success([Rule()])
    ensures Clear("ABC") == Success(" ")
  {
    var s := "ABC";
    LetterLineSegments();
    assert BuildElement(s, Match(0, 3, 7)) == Success(Rule());
    var segs := [Found(Match(0, 3, 7))];
    assert segs[1..] == [];
    assert BuildAll(s, segs) == Concat(Single(Success(Rule())), Success([]));
    assert [Rule()] + [] == [Rule()];
    assert Tokenize(s) == BuildAll(s, segs);
    assert StripMarkup(" ") == " " by {
      assert multiset(StripMarkup(" "))[' '] == 1;
    }
  }

  /** The whole of `ABC` is one match of the rule group, and nothing else matches. */
  lemma LetterLineSegments()
    ensures Segments("ABC", 0) == [Found(Match(0, 3, 7))]
  {
    var s := "ABC";
    assert RuleAt(s, 0) == Some(Hit(7, 3));
    assert FirstMatch(s, 0) == Some(Match(0, 3, 7));
    assert FirstMatch(s, 3) == None;
    assert Segments(s, 3) == [];
  }

  /**
   * The line-start alternative of the link group, `^\[*?]\(.*?\)`, needs no
   * opening bracket, so a line `](x)` is a link match; the inner
   * `\[(.*)]\((.*)\)` then finds no `[` in it, and the parse fails on that
   * span (in Kotlin the `!!` throws), as does `clear`.
   */
  lemma LineStartLinkFails()
    ensures Tokenize("](x)") == Failure(LinkNotDecomposed("](x)"))
    ensures Clear("](x)") == Failure(LinkNotDecomposed("](x)"))
  {
    var s := "](x)";
    LineStartLinkSegments();
    LineStartLinkElement();
    var segs := [Found(Match(0, 4, 9))];
    assert segs[1..] == [];
    assert BuildAll(s, segs) == Concat(Single(Failure(LinkNotDecomposed(s))), Success([]));
    assert Tokenize(s) == BuildAll(s, segs);
  }

  /** That match holds no `[`, so it does not decompose into a title and a link. */
  lemma LineStartLinkElement()
    ensures Shaped("](x)", Match(0, 4, 9))
    ensures BuildElement("](x)", Match(0, 4, 9)) == Failure(LinkNotDecomposed("](x)"))
  {
    var s := "](x)";
    LineStartLinkSegments();
    assert s[0..4] == s;
    assert LinkStart(s, 0).None?;
  }

  /** The whole of `](x)` is one match of the link group, and nothing else matches. */
  lemma LineStartLinkSegments()
    ensures Segments("](x)", 0) == [Found(Match(0, 4, 9))]
  {
    var s := "](x)";
    assert RuleAt(s, 0) == Some(Hit(9, 4));
    assert FirstMatch(s, 0) == Some(Match(0, 4, 9));
    assert FirstMatch(s, 4) == None;
    assert Segments(s, 4) == [];
  }

  /**
   * The correction only narrows the group: the three markers lie inside the
   * written range, so every rule line the corrected class accepts the written
   * one accepts too, with the same end.
   */
  lemma {:induction false} RuleLineNarrowsAsWritten(s: string, i: nat)
    requires i < |s|
    ensures RuleLineAt(s, i).Some? ==> RuleLineAsWrittenAt(s, i) == RuleLineAt(s, i)
    ensures RuleLineAsWrittenAt(s, i).Some? && RuleLineAt(s, i).None? ==>
      exists k :: i <= k < i + 3 && InRuleRange(s[k]) && !IsRuleMarker(s[k])
  {
    if RuleLineAsWrittenAt(s, i).Some? && RuleLineAt(s, i).None? {
      if IsRuleMarker(s[i]) && IsRuleMarker(s[i + 1]) {
        assert InRuleRange(s[i + 2]) && !IsRuleMarker(s[i + 2]);
      } else if IsRuleMarker(s[i]) {
        assert InRuleRange(s[i + 1]) && !IsRuleMarker(s[i + 1]);
      } else {
        assert InRuleRange(s[i]) && !IsRuleMarker(s[i]);
      }
    }
  }
}
