/**
 * `MarkdownParser.parse` and `clear`: the input is cut at every match of the
 * composite pattern, the text between matches becomes `Text` elements, each
 * match becomes the element of the group that captured it, and the inner text
 * of list items, quotes, emphasis and code is parsed again for sub-elements.
 *
 * The cutting is specified by `Segments` and the element built for a match by
 * `BuildElement`; `Tokenize` puts the two together and is what the imperative
 * `FindElements` loop is proved to compute. A `!!` that would throw becomes a
 * `Failure`.
 */
module MarkdownParser {
  import opened Wrappers
  import opened Chars
  import opened MarkdownRules

  /** The sealed class `Element`: every variant has a text and a list of sub-elements. */
  datatype Element =
    | Text(text: string, elements: seq<Element> := [])
    | UnorderedListItem(text: string, elements: seq<Element> := [])
    | Header(level: int, text: string, elements: seq<Element> := [])
    | Quote(text: string, elements: seq<Element> := [])
    | Italic(text: string, elements: seq<Element> := [])
    | Bold(text: string, elements: seq<Element> := [])
    | Strike(text: string, elements: seq<Element> := [])
    | Rule(text: string := " ", elements: seq<Element> := [])
    | InlineCode(text: string, elements: seq<Element> := [])
    | Link(link: string, text: string, elements: seq<Element> := [])
    | OrderedListItem(order: string, text: string, elements: seq<Element> := [])
    | BlockCode(text: string, elements: seq<Element> := [])
    | Image(alt: Option<string>, url: string, text: string := " ", elements: seq<Element> := [])

  datatype MarkdownText = MarkdownText(elements: seq<Element>)

  /** The `NullPointerException` of a `!!` when a link's or an image's inner pattern does not match its span. */
  datatype ParseError = LinkNotDecomposed(span: string) | ImageNotDecomposed(span: string)

  type Parsed = Result<seq<Element>, ParseError>

  /** The capture group whose match builds an element of this variant (0 for `Text`, which no group builds). */
  function GroupOf(e: Element): nat {
    match e
    case Text(_, _) => 0
    case UnorderedListItem(_, _) => 1
    case Header(_, _, _) => 2
    case Quote(_, _) => 3
    case Italic(_, _) => 4
    case Bold(_, _) => 5
    case Strike(_, _) => 6
    case Rule(_, _) => 7
    case InlineCode(_, _) => 8
    case Link(_, _, _) => 9
    case OrderedListItem(_, _, _) => 10
    case BlockCode(_, _) => 11
    case Image(_, _, _, _) => 12
  }

  /** The groups whose inner text is parsed again for sub-elements. */
  predicate Recurses(g: nat) {
    g == 1 || g == 3 || g == 4 || g == 5 || g == 6 || g == 8 || g == 10 || g == 11
  }

  /** How many chars of a recursing group's match precede and follow its inner text. */
  function Delimiters(g: nat): (nat, nat) {
    if g == 1 || g == 3 then (2, 0)
    else if g == 4 || g == 8 then (1, 1)
    else if g == 5 || g == 6 then (2, 2)
    else if g == 10 then (3, 0)
    else (3, 3)
  }

  // ---------------------------------------------------------------------------
  // The inner patterns of links and images.
  // ---------------------------------------------------------------------------

  /** `[` + title + `](` + link + `)` occurs in `t` at `o`. */
  predicate LinkFramedAt(t: string, o: nat, title: string, link: string) {
    o + |title| + |link| + 4 <= |t| && t[o..o + |title| + |link| + 4] == "[" + title + "](" + link + ")"
  }

  /** Backtracking of a greedy `(.*)` followed by `\)`: the last `)` in `t[lo..m]`. */
  function LastParenBefore(t: string, lo: nat, m: nat): (r: Option<nat>)
    requires lo <= m <= |t|
    ensures r.Some? ==> lo <= r.value < m && t[r.value] == ')'
    ensures r.Some? ==> forall k :: r.value < k < m ==> t[k] != ')'
    ensures r.None? ==> forall k :: lo <= k < m ==> t[k] != ')'
    decreases m
  {
    if m == lo then None
    else if t[m - 1] == ')' then Some(m - 1)
    else LastParenBefore(t, lo, m - 1)
  }

  /** The title can end at `q`: a `](` there, and a `)` later on the same line. */
  predicate LinkSplitAt(t: string, q: nat) {
    q + 1 < |t| && t[q] == ']' && t[q + 1] == '(' && LastParenBefore(t, q + 2, NextLineEnd(t, q + 2)).Some?
  }

  /**
   * `(.*)]\((.*)\)` after the `[` at `a - 1`, with the title's greedy `(.*)`
   * backtracking from `q` down to `a`: the LAST `](` that a `)` follows on its
   * line, and the last such `)`.
   */
  function LinkSplit(t: string, a: nat, q: nat): (r: Option<(nat, nat)>)
    requires a <= q <= |t|
    ensures r.Some? ==> a <= r.value.0 <= q && r.value.0 + 2 <= r.value.1 < |t|
    ensures r.Some? ==> t[r.value.0] == ']' && t[r.value.0 + 1] == '(' && t[r.value.1] == ')'
    decreases q
  {
    if LinkSplitAt(t, q) then
      Some((q, LastParenBefore(t, q + 2, NextLineEnd(t, q + 2)).value))
    else if q == a then None
    else LinkSplit(t, a, q - 1)
  }

  /** Where the title ends, the link runs, greedily, to the last `)` of its line. */
  lemma {:induction false} LinkSplitFound(t: string, a: nat, q: nat)
    requires a <= q <= |t|
    ensures LinkSplit(t, a, q).Some? ==> var split := LinkSplit(t, a, q).value;
      LinkSplitAt(t, split.0) && LastParenBefore(t, split.0 + 2, NextLineEnd(t, split.0 + 2)) == Some(split.1)
    decreases q
  {
    if !LinkSplitAt(t, q) && q != a {
      assert LinkSplit(t, a, q) == LinkSplit(t, a, q - 1);
      LinkSplitFound(t, a, q - 1);
    }
  }

  /** The greedy title backtracks only as far as the last place where the rest can match. */
  lemma {:induction false} LinkSplitLast(t: string, a: nat, q: nat)
    requires a <= q <= |t|
    ensures LinkSplit(t, a, q).Some? ==> forall k :: LinkSplit(t, a, q).value.0 < k <= q ==> !LinkSplitAt(t, k)
    ensures LinkSplit(t, a, q).None? ==> forall k :: a <= k <= q ==> !LinkSplitAt(t, k)
    decreases q
  {
    if !LinkSplitAt(t, q) && q != a {
      assert LinkSplit(t, a, q) == LinkSplit(t, a, q - 1);
      LinkSplitLast(t, a, q - 1);
    }
  }

  lemma LinkFrame(t: string, p: nat, c: nat, e: nat)
    requires p < c && c + 2 <= e < |t|
    requires t[p] == '[' && t[c] == ']' && t[c + 1] == '(' && t[e] == ')'
    ensures LinkFramedAt(t, p, t[p + 1..c], t[c + 2..e])
  {
    assert t[p..e + 1] == [t[p]] + t[p + 1..c] + [t[c], t[c + 1]] + t[c + 2..e] + [t[e]];
  }

  /** The link pattern tried at `o`: a `[`, then the split of the rest of its line. */
  function LinkOpenAt(t: string, o: nat): (r: Option<(nat, nat)>)
    requires o < |t|
    ensures r.Some? ==> t[o] == '[' && o + 1 <= r.value.0 && r.value.0 + 2 <= r.value.1 < |t|
    ensures r.Some? ==> t[r.value.0] == ']' && t[r.value.0 + 1] == '(' && t[r.value.1] == ')'
  {
    if t[o] == '[' then LinkSplit(t, o + 1, NextLineEnd(t, o + 1)) else None
  }

  /** `find` resumed at `p`: the leftmost start of a link-pattern match. */
  function LinkStart(t: string, p: nat): (o: Option<nat>)
    requires p <= |t|
    ensures o.Some? ==> p <= o.value < |t| && LinkOpenAt(t, o.value).Some?
    decreases |t| - p
  {
    if p == |t| then None
    else if LinkOpenAt(t, p).Some? then Some(p)
    else LinkStart(t, p + 1)
  }

  /** The link pattern matches at no start in `[lo, hi)`. */
  predicate NoLinkBetween(t: string, lo: nat, hi: nat)
    requires lo <= hi <= |t|
    decreases hi - lo
  {
    lo == hi || (LinkOpenAt(t, lo).None? && NoLinkBetween(t, lo + 1, hi))
  }

  /** `find` reports the leftmost match: the pattern matches nowhere before the start it returns. */
  lemma {:induction false} LinkStartFirst(t: string, p: nat)
    requires p <= |t|
    ensures LinkStart(t, p).Some? ==> NoLinkBetween(t, p, LinkStart(t, p).value)
    ensures LinkStart(t, p).None? ==> NoLinkBetween(t, p, |t|)
    decreases |t| - p
  {
    if p < |t| && LinkOpenAt(t, p).None? {
      LinkStartFirst(t, p + 1);
    }
  }

  /** The title and the link of a match of the link pattern at `o`, framed there as `[title](link)`. */
  function LinkPartsAt(t: string, o: nat): (r: Option<(string, string)>)
    requires o < |t|
    ensures r.Some? <==> LinkOpenAt(t, o).Some?
    ensures r.Some? ==> var split := LinkOpenAt(t, o).value;
      && r.value.0 == t[o + 1..split.0] && r.value.1 == t[split.0 + 2..split.1]
      && LinkFramedAt(t, o, r.value.0, r.value.1)
  {
    match LinkOpenAt(t, o)
    case None => None
    case Some(split) =>
      LinkFrame(t, o, split.0, split.1);
      Some((t[o + 1..split.0], t[split.0 + 2..split.1]))
  }

  /**
   * The title and the link that `destructured` yields for a link span: those
   * of the leftmost match, cut at its greedy split.
   */
  function LinkParts(t: string): (r: Option<(string, string)>)
    ensures r.Some? <==> LinkStart(t, 0).Some?
    ensures r.Some? ==> r == LinkPartsAt(t, LinkStart(t, 0).value)
  {
    match LinkStart(t, 0)
    case None => None
    case Some(o) => LinkPartsAt(t, o)
  }

  /**
   * `.*?\"\)` once the lazy `.*?` of a title has consumed everything before
   * `u`: the FIRST `")` on the rest of the line.
   */
  function QuoteThenParen(t: string, u: nat): (r: Option<nat>)
    requires u <= |t|
    ensures r.Some? ==> u <= r.value < NextLineEnd(t, u) && QuoteCloseAt(t, r.value)
    ensures r.Some? ==> forall k :: u <= k < r.value ==> !QuoteCloseAt(t, k)
    ensures r.None? ==> forall k :: u <= k < NextLineEnd(t, u) ==> !QuoteCloseAt(t, k)
    decreases |t| - u
  {
    if QuoteCloseAt(t, u) then Some(u)
    else if u < |t| && IsDot(t[u]) then QuoteThenParen(t, u + 1)
    else None
  }

  /** Where the lazy address can stop: at a title that a `")` closes, or at a bare `)`. */
  predicate AddressStop(t: string, p: nat) {
    p < |t| && ((t[p] == '"' && QuoteThenParen(t, p + 1).Some?) || t[p] == ')')
  }

  /**
   * `(.*?)(\".*?\")?\)` once the lazy address has consumed everything before
   * `r`: where the address ends and where the optional title ends (the `)`).
   * The address stops at the first place on its line where the rest can
   * match, and there the greedy `?` takes the title whenever one closes.
   */
  function ImageAddress(t: string, r: nat): (e: Option<(nat, nat)>)
    requires r <= |t|
    ensures e.Some? ==> r <= e.value.0 <= e.value.1 < |t| && t[e.value.1] == ')'
    ensures e.Some? && e.value.0 < e.value.1 ==> e.value.0 + 2 <= e.value.1 && t[e.value.0] == '"' && t[e.value.1 - 1] == '"'
    decreases |t| - r
  {
    if r < |t| && t[r] == '"' && QuoteThenParen(t, r + 1).Some? then Some((r, QuoteThenParen(t, r + 1).value + 1))
    else if r < |t| && t[r] == ')' then Some((r, r))
    else if r < |t| && IsDot(t[r]) then ImageAddress(t, r + 1)
    else None
  }

  /**
   * Where the lazy address stops, the greedy `?` takes the title whenever a
   * `")` closes one, and the image then ends just after that `")`.
   */
  lemma {:induction false} ImageAddressStop(t: string, r: nat)
    requires r <= |t|
    ensures ImageAddress(t, r).Some? ==> var e := ImageAddress(t, r).value;
      && e.0 < NextLineEnd(t, r) && AddressStop(t, e.0)
      && (e.0 < e.1 <==> t[e.0] == '"' && QuoteThenParen(t, e.0 + 1).Some?)
      && (e.0 < e.1 ==> e.1 == QuoteThenParen(t, e.0 + 1).value + 1)
    decreases |t| - r
  {
    if AddressStop(t, r) {
      assert NextLineEnd(t, r) == NextLineEnd(t, r + 1);
    } else if r < |t| && IsDot(t[r]) {
      assert ImageAddress(t, r) == ImageAddress(t, r + 1);
      assert NextLineEnd(t, r) == NextLineEnd(t, r + 1);
      ImageAddressStop(t, r + 1);
    }
  }

  /** The lazy address stops at the first place on its line where the title or the `)` can follow. */
  lemma {:induction false} ImageAddressFirst(t: string, r: nat)
    requires r <= |t|
    ensures ImageAddress(t, r).Some? ==> forall k :: r <= k < ImageAddress(t, r).value.0 ==> !AddressStop(t, k)
    ensures ImageAddress(t, r).None? ==> forall k :: r <= k < NextLineEnd(t, r) ==> !AddressStop(t, k)
    decreases |t| - r
  {
    if !AddressStop(t, r) && r < |t| && IsDot(t[r]) {
      ImageAddressFirst(t, r + 1);
    }
  }

  /** The alt can end at `c`: a `](` there, and an address with its `)` after it. */
  predicate ImageSplitAt(t: string, c: nat) {
    c + 1 < |t| && t[c] == ']' && t[c + 1] == '(' && ImageAddress(t, c + 2).Some?
  }

  /**
   * `!\[(.*)]\((.*?)(\".*?\")?\)` with the alt's greedy `(.*)` backtracking
   * from `q` down to 2: the LAST `](` after which the address matches.
   */
  function ImageSplit(t: string, q: nat): (r: Option<(nat, nat, nat)>)
    requires 2 <= q <= |t|
    ensures r.Some? ==> 2 <= r.value.0 <= q && r.value.0 + 2 <= r.value.1 <= r.value.2 < |t|
    ensures r.Some? ==> t[r.value.0] == ']' && t[r.value.0 + 1] == '(' && t[r.value.2] == ')'
    ensures r.Some? && r.value.1 < r.value.2 ==> r.value.1 + 2 <= r.value.2 && t[r.value.1] == '"' && t[r.value.2 - 1] == '"'
    decreases q
  {
    if ImageSplitAt(t, q) then
      var e := ImageAddress(t, q + 2).value;
      Some((q, e.0, e.1))
    else if q == 2 then None
    else ImageSplit(t, q - 1)
  }

  /** Where the alt ends, the address and the optional title are those matched after its `](`. */
  lemma {:induction false} ImageSplitFound(t: string, q: nat)
    requires 2 <= q <= |t|
    ensures ImageSplit(t, q).Some? ==> var split := ImageSplit(t, q).value;
      && ImageSplitAt(t, split.0)
      && split.1 == ImageAddress(t, split.0 + 2).value.0 && split.2 == ImageAddress(t, split.0 + 2).value.1
    decreases q
  {
    if !ImageSplitAt(t, q) && q != 2 {
      assert ImageSplit(t, q) == ImageSplit(t, q - 1);
      ImageSplitFound(t, q - 1);
    }
  }

  /** The greedy alt backtracks only as far as the last `](` after which the address matches. */
  lemma {:induction false} ImageSplitLast(t: string, q: nat)
    requires 2 <= q <= |t|
    ensures ImageSplit(t, q).Some? ==> forall k :: ImageSplit(t, q).value.0 < k <= q ==> !ImageSplitAt(t, k)
    ensures ImageSplit(t, q).None? ==> forall k :: 2 <= k <= q ==> !ImageSplitAt(t, k)
    decreases q
  {
    if !ImageSplitAt(t, q) && q != 2 {
      assert ImageSplit(t, q) == ImageSplit(t, q - 1);
      ImageSplitLast(t, q - 1);
    }
  }

  /** A title is empty, or a quoted string whose quotes `Image` drops. */
  predicate IsTitle(title: string) {
    title == [] || (|title| >= 2 && title[0] == '"' && title[|title| - 1] == '"')
  }

  lemma ImageFrame(t: string, c: nat, q: nat, e: nat)
    requires 2 <= c && c + 2 <= q <= e < |t|
    requires t[0] == '!' && t[1] == '[' && t[c] == ']' && t[c + 1] == '(' && t[e] == ')'
    ensures t[..e + 1] == "![" + t[2..c] + "](" + t[c + 2..q] + t[q..e] + ")"
  {
    assert t[..e + 1] == [t[0], t[1]] + t[2..c] + [t[c], t[c + 1]] + t[c + 2..q] + t[q..e] + [t[e]];
  }

  /**
   * `Regex("^!\\[(.*)]\\((.*?)(\".*?\")?\\)").find(t)!!.destructured` as
   * `(alt, link, title)`; the title keeps its quotes and is empty when absent.
   */
  function ImageParts(t: string): (r: Option<(string, string, string)>)
    ensures r.Some? <==> |t| >= 2 && t[0] == '!' && t[1] == '[' && ImageSplit(t, NextLineEnd(t, 2)).Some?
    ensures r.Some? ==> var split := ImageSplit(t, NextLineEnd(t, 2)).value;
      r.value.0 == t[2..split.0] && r.value.1 == t[split.0 + 2..split.1] && r.value.2 == t[split.1..split.2]
    ensures r.Some? ==> var n := |r.value.0| + |r.value.1| + |r.value.2| + 5;
      n <= |t| && t[..n] == "![" + r.value.0 + "](" + r.value.1 + r.value.2 + ")" && IsTitle(r.value.2)
  {
    if |t| >= 2 && t[0] == '!' && t[1] == '[' && ImageSplit(t, NextLineEnd(t, 2)).Some? then
      var split := ImageSplit(t, NextLineEnd(t, 2)).value;
      var alt, link, title := t[2..split.0], t[split.0 + 2..split.1], t[split.1..split.2];
      ImageFrame(t, split.0, split.1, split.2);
      Some((alt, link, title))
    else None
  }

  /** `title.substring(1, title.length - 1)` for a quoted title, the empty title unchanged. */
  function Unquote(title: string): (r: string)
    requires IsTitle(title)
    ensures title != [] ==> title == ['"'] + r + ['"']
    ensures title == [] ==> r == []
  {
    if title == [] then [] else title[1..|title| - 1]
  }

  // ---------------------------------------------------------------------------
  // Headers and ordered items.
  // ---------------------------------------------------------------------------

  /** `Regex("^#{1,6}").find(span)!!.value.length`: the leading `#` run of the span, capped at six. */
  function HeaderLevel(span: string): (level: nat)
    ensures level <= 6 && level <= HashRun(span, 0) && level <= |span|
    ensures forall k :: 0 <= k < level ==> span[k] == '#'
    ensures level < 6 ==> level == |span| || span[level] != '#'
  {
    var n := HashRun(span, 0);
    if n > 6 then 6 else n
  }

  /** A run of `#` counted inside a slice that holds the whole run and the char after it is counted in full. */
  lemma {:induction false} HashRunOfSlice(s: string, st: nat, en: nat, j: nat)
    requires st + j <= en <= |s|
    requires st + j + HashRun(s, st + j) < en
    ensures HashRun(s[st..en], j) == HashRun(s, st + j)
    decreases en - st - j
  {
    if s[st + j] == '#' {
      HashRunOfSlice(s, st, en, j + 1);
    }
  }

  /** `indexOfLast { !it.isLetter() }`: the last index of `t` holding a non-letter, or -1. */
  function LastNonLetter(t: string): (k: int)
    ensures -1 <= k < |t|
    ensures k >= 0 ==> !IsLetter(t[k])
    ensures forall j :: k < j < |t| ==> IsLetter(t[j])
  {
    if t == [] then -1
    else if !IsLetter(t[|t| - 1]) then |t| - 1
    else LastNonLetter(t[..|t| - 1])
  }

  // ---------------------------------------------------------------------------
  // The element built for one match.
  // ---------------------------------------------------------------------------

  /** `shell` with the sub-elements found in its text, or the error that finding them raised. */
  function WithElements(shell: Element, subs: Parsed): (r: Result<Element, ParseError>)
    ensures r.Success? <==> subs.Success?
    ensures r.Success? ==> r.value.elements == subs.value && GroupOf(r.value) == GroupOf(shell) && r.value.text == shell.text
  {
    match subs
    case Success(els) => Success(shell.(elements := els))
    case Failure(e) => Failure(e)
  }

  /** The inner text of a recursing group's match: the match without its leading and trailing delimiters. */
  function Inner(s: string, m: Match): (text: string)
    requires Shaped(s, m) && Recurses(m.group)
    ensures |text| < m.end - m.start && |text| < |s|
    ensures m.group == 1 || m.group == 3 ==> text == s[m.start + 2..m.end]
    ensures m.group == 4 || m.group == 8 ==> text == s[m.start + 1..m.end - 1]
    ensures m.group == 5 || m.group == 6 ==> text == s[m.start + 2..m.end - 2]
    ensures m.group == 10 ==> text == s[m.start + 3..m.end]
    ensures m.group == 11 ==> text == s[m.start + 3..m.end - 3]
  {
    s[m.start + Delimiters(m.group).0..m.end - Delimiters(m.group).1]
  }

  /** The element a recursing group builds around `text`, before its sub-elements are found. */
  function Shell(s: string, m: Match, text: string): (e: Element)
    requires Shaped(s, m) && Recurses(m.group)
    ensures GroupOf(e) == m.group && e.text == text && e.elements == []
  {
    match m.group
    case 1 => UnorderedListItem(text)
    case 3 => Quote(text)
    case 4 => Italic(text)
    case 5 => Bold(text)
    case 6 => Strike(text)
    case 8 => InlineCode(text)
    case 10 =>
      var span := s[m.start..m.end];
      assert !IsLetter(span[0]);
      OrderedListItem(span[..LastNonLetter(span)], text)
    case 11 => BlockCode(text)
  }

  /** The element of a group whose text is not parsed again: a header, a rule, a link or an image. */
  function Leaf(s: string, m: Match): Result<Element, ParseError>
    requires Shaped(s, m) && !Recurses(m.group)
  {
    var st, en := m.start, m.end;
    match m.group
    case 2 =>
      HashRunOfSlice(s, st, en, 0);
      var level := HeaderLevel(s[st..en]);
      Success(Header(level, s[st + level + 1..en]))
    case 7 =>
      Success(Rule())
    case 9 =>
      var span := s[st..en];
      (match LinkParts(span)
       case Some((title, link)) => Success(Link(link, title))
       case None => Failure(LinkNotDecomposed(span)))
    case 12 =>
      var span := s[st..en];
      (match ImageParts(span)
       case Some((alt, link, title)) =>
         Success(Image(if alt == [] then None else Some(alt), Trim(link), Unquote(title)))
       case None => Failure(ImageNotDecomposed(span)))
  }

  /** The element the `when (group)` branch builds for the match `m` of `s`. */
  function BuildElement(s: string, m: Match): (r: Result<Element, ParseError>)
    requires Shaped(s, m)
    decreases |s|, 0, 0
  {
    if Recurses(m.group) then WithElements(Shell(s, m, Inner(s, m)), Tokenize(Inner(s, m)))
    else Leaf(s, m)
  }

  // ---------------------------------------------------------------------------
  // Cutting the input at the matches.
  // ---------------------------------------------------------------------------

  /** A piece of the input: the unmatched text `s[lo..hi]`, or a match. */
  datatype Segment = Gap(lo: nat, hi: nat) | Found(m: Match)

  predicate SegmentOK(s: string, seg: Segment) {
    match seg
    case Gap(lo, hi) => lo < hi <= |s|
    case Found(m) => IsMatch(s, m) && Shaped(s, m)
  }

  function Lo(seg: Segment): nat {
    match seg
    case Gap(lo, _) => lo
    case Found(m) => m.start
  }

  function Hi(seg: Segment): nat {
    match seg
    case Gap(_, hi) => hi
    case Found(m) => m.end
  }

  /** The pieces the loop of `findElements` cuts `s[from..]` into: the text before each match, then the match. */
  function Segments(s: string, from: nat): (r: seq<Segment>)
    requires from <= |s|
    ensures forall k :: 0 <= k < |r| ==> SegmentOK(s, r[k])
    decreases |s| - from
  {
    match FirstMatch(s, from)
    case None => if from < |s| then [Gap(from, |s|)] else []
    case Some(m) =>
      MatchShaped(s, m);
      (if from < m.start then [Gap(from, m.start)] else []) + [Found(m)] + Segments(s, m.end)
  }

  /** The outcome of a computation over the pieces in order: the first error, or all elements. */
  function Concat(a: Parsed, b: Parsed): Parsed {
    match a
    case Failure(e) => Failure(e)
    case Success(x) => (match b case Failure(e) => Failure(e) case Success(y) => Success(x + y))
  }

  function Single(r: Result<Element, ParseError>): Parsed {
    match r
    case Success(e) => Success([e])
    case Failure(e) => Failure(e)
  }

  /** A gap becomes a `Text` element holding it verbatim; a match becomes its group's element. */
  function BuildSegment(s: string, seg: Segment): Result<Element, ParseError>
    requires SegmentOK(s, seg)
    decreases |s|, 1, 0
  {
    match seg
    case Gap(lo, hi) => Success(Text(s[lo..hi]))
    case Found(m) => BuildElement(s, m)
  }

  function BuildAll(s: string, segs: seq<Segment>): Parsed
    requires forall k :: 0 <= k < |segs| ==> SegmentOK(s, segs[k])
    decreases |s|, 2, |segs|
  {
    if segs == [] then Success([])
    else Concat(Single(BuildSegment(s, segs[0])), BuildAll(s, segs[1..]))
  }

  /** The elements `findElements` returns for `s`, or the error it throws. */
  function Tokenize(s: string): Parsed
    decreases |s|, 3, 0
  {
    BuildAll(s, Segments(s, 0))
  }

  // ---------------------------------------------------------------------------
  // The imperative loop.
  // ---------------------------------------------------------------------------

  lemma ConcatAssoc(a: Parsed, b: Parsed, c: Parsed)
    ensures Concat(Concat(a, b), c) == Concat(a, Concat(b, c))
  {
    if a.Success? && b.Success? && c.Success? {
      assert (a.value + b.value) + c.value == a.value + (b.value + c.value);
    }
  }

  lemma ConcatEmpty(a: Parsed)
    ensures Concat(Success([]), a) == a
    ensures Concat(a, Success([])) == a
  {
    if a.Success? {
      assert [] + a.value == a.value;
      assert a.value + [] == a.value;
    }
  }

  /** Building the pieces of `a + b` is building those of `a`, then those of `b`. */
  lemma {:induction false} BuildAllAppend(s: string, a: seq<Segment>, b: seq<Segment>)
    requires forall k :: 0 <= k < |a| ==> SegmentOK(s, a[k])
    requires forall k :: 0 <= k < |b| ==> SegmentOK(s, b[k])
    ensures BuildAll(s, a + b) == Concat(BuildAll(s, a), BuildAll(s, b))
    decreases |a|
  {
    if a == [] {
      assert a + b == b;
      ConcatEmpty(BuildAll(s, b));
    } else {
      assert (a + b)[1..] == a[1..] + b;
      BuildAllAppend(s, a[1..], b);
      ConcatAssoc(Single(BuildSegment(s, a[0])), BuildAll(s, a[1..]), BuildAll(s, b));
    }
  }

  lemma ConcatSuccess(p: seq<Element>, q: seq<Element>, r: Parsed)
    ensures Concat(Success(p), Concat(Success(q), r)) == Concat(Success(p + q), r)
  {
    if r.Success? {
      assert p + (q + r.value) == (p + q) + r.value;
    }
  }

  /** The `Text` element for the gap before a match at `start`, when there is one. */
  function GapText(s: string, lo: nat, start: nat): seq<Element>
    requires lo <= start <= |s|
  {
    if lo < start then [Text(s[lo..start])] else []
  }

  /** The gap piece before a match at `start`, when there is one. */
  function GapBefore(lo: nat, start: nat): seq<Segment> {
    if lo < start then [Gap(lo, start)] else []
  }

  lemma {:induction false} SegmentsUnfold(s: string, last: nat, m: Match)
    requires last <= |s| && FirstMatch(s, last) == Some(m)
    ensures m.end <= |s| && Segments(s, last) == GapBefore(last, m.start) + [Found(m)] + Segments(s, m.end)
  {
    MatchShaped(s, m);
  }

  lemma {:induction false} BuildGap(s: string, lo: nat, start: nat)
    requires lo <= start <= |s|
    ensures BuildAll(s, GapBefore(lo, start)) == Success(GapText(s, lo, start))
  {
    if lo < start {
      assert GapBefore(lo, start)[1..] == [];
      ConcatEmpty(Single(BuildSegment(s, Gap(lo, start))));
    }
  }

  lemma {:induction false} BuildSingle(s: string, seg: Segment)
    requires SegmentOK(s, seg)
    ensures BuildAll(s, [seg]) == Single(BuildSegment(s, seg))
  {
    assert [seg][1..] == [];
    ConcatEmpty(Single(BuildSegment(s, seg)));
  }

  /** After the last match: the trailing text, if any. */
  lemma {:induction false} SegmentsEnd(s: string, last: nat, parents: seq<Element>)
    requires last <= |s| && FirstMatch(s, last).None?
    ensures Concat(Success(parents), BuildAll(s, Segments(s, last))) == Success(parents + GapText(s, last, |s|))
  {
    BuildGap(s, last, |s|);
    assert Segments(s, last) == GapBefore(last, |s|);
    ConcatSuccess(parents, GapText(s, last, |s|), Success([]));
    ConcatEmpty(Success(GapText(s, last, |s|)));
  }

  /** Building three runs of pieces one after the other. */
  lemma {:induction false} BuildAllThree(s: string, a: seq<Segment>, b: seq<Segment>, c: seq<Segment>)
    requires forall k :: 0 <= k < |a| ==> SegmentOK(s, a[k])
    requires forall k :: 0 <= k < |b| ==> SegmentOK(s, b[k])
    requires forall k :: 0 <= k < |c| ==> SegmentOK(s, c[k])
    ensures BuildAll(s, a + b + c) == Concat(BuildAll(s, a), Concat(BuildAll(s, b), BuildAll(s, c)))
  {
    BuildAllAppend(s, a + b, c);
    BuildAllAppend(s, a, b);
    ConcatAssoc(BuildAll(s, a), BuildAll(s, b), BuildAll(s, c));
  }

  /** One turn of the loop: the gap before the match, the match's element, then the rest. */
  lemma {:induction false} LoopStep(s: string, last: nat, parents: seq<Element>, m: Match)
    requires last <= |s| && FirstMatch(s, last) == Some(m)
    ensures Concat(Success(parents), BuildAll(s, Segments(s, last)))
      == Concat(Success(parents + GapText(s, last, m.start)), Concat(Single(BuildElement(s, m)), BuildAll(s, Segments(s, m.end))))
  {
    SegmentsUnfold(s, last, m);
    var rest := Segments(s, m.end);
    BuildAllThree(s, GapBefore(last, m.start), [Found(m)], rest);
    BuildGap(s, last, m.start);
    BuildSingle(s, Found(m));
    ConcatAssoc(Success(parents), Success(GapText(s, last, m.start)), Concat(Single(BuildElement(s, m)), BuildAll(s, rest)));
  }

  /**
   * One branch of `when (group)`: the element for the match `m`. The eight
   * groups whose inner text is parsed again share one branch, which strips
   * the group's delimiters and finds the sub-elements of what remains.
   */
  method ElementFor(s: string, m: Match) returns (r: Result<Element, ParseError>)
    requires Shaped(s, m)
    ensures r == BuildElement(s, m)
    decreases |s|, 0
  {
    var startIndex, endIndex := m.start, m.end;
    if Recurses(m.group) {
      var text := s[startIndex + Delimiters(m.group).0..endIndex - Delimiters(m.group).1];
      assert text == Inner(s, m);
      var subs := FindElements(text);
      if subs.Failure? {
        return Failure(subs.error);
      }
      return WithElements(Shell(s, m, text), subs);
    }
    r := LeafFor(s, m);
  }

  /** The branches of `when (group)` for headers, rules, links and images, whose text is not parsed again. */
  method LeafFor(s: string, m: Match) returns (r: Result<Element, ParseError>)
    requires Shaped(s, m) && !Recurses(m.group)
    ensures r == Leaf(s, m)
  {
    var startIndex, endIndex := m.start, m.end;
    match m.group {
      case 2 =>
        HashRunOfSlice(s, startIndex, endIndex, 0);
        var level := HeaderLevel(s[startIndex..endIndex]);
        r := Success(Header(level, s[startIndex + level + 1..endIndex]));
      case 7 =>
        r := Success(Rule());
      case 9 =>
        var span := s[startIndex..endIndex];
        var parts := LinkParts(span);
        if parts.None? {
          return Failure(LinkNotDecomposed(span));
        }
        var (title, link) := parts.value;
        r := Success(Link(link, title));
      case 12 =>
        var span := s[startIndex..endIndex];
        var parts := ImageParts(span);
        if parts.None? {
          return Failure(ImageNotDecomposed(span));
        }
        var (alt, link, title) := parts.value;
        r := Success(Image(if alt == [] then None else Some(alt), Trim(link), Unquote(title)));
    }
  }

  /** `findElements`: finds match after match, collecting the text between them and the elements they build. */
  method FindElements(s: string) returns (r: Parsed)
    ensures r == Tokenize(s)
    decreases |s|, 1
  {
    var parents: seq<Element> := [];
    var lastStartIndex: nat := 0;
    var found := FirstMatch(s, lastStartIndex);
    ConcatEmpty(BuildAll(s, Segments(s, lastStartIndex)));
    while found.Some?
      invariant lastStartIndex <= |s|
      invariant found == FirstMatch(s, lastStartIndex)
      invariant Tokenize(s) == Concat(Success(parents), BuildAll(s, Segments(s, lastStartIndex)))
      decreases |s| - lastStartIndex
    {
      var m := found.value;
      MatchShaped(s, m);
      var startIndex, endIndex := m.start, m.end;
      ghost var rest := BuildAll(s, Segments(s, endIndex));
      LoopStep(s, lastStartIndex, parents, m);
      if lastStartIndex < startIndex {
        parents := parents + [Text(s[lastStartIndex..startIndex])];
      }
      assert Tokenize(s) == Concat(Success(parents), Concat(Single(BuildElement(s, m)), rest));
      var built := ElementFor(s, m);
      if built.Failure? {
        return Failure(built.error);
      }
      var element := built.value;
      ConcatSuccess(parents, [element], rest);
      parents := parents + [element];
      lastStartIndex := endIndex;
      found := FirstMatch(s, lastStartIndex);
    }
    SegmentsEnd(s, lastStartIndex, parents);
    ghost var expected := parents + GapText(s, lastStartIndex, |s|);
    if lastStartIndex < |s| {
      parents := parents + [Text(s[lastStartIndex..|s|])];
    }
    assert parents == expected;
    return Success(parents);
  }

  /** `parse`: the elements of the whole string. */
  method Parse(s: string) returns (r: Result<MarkdownText, ParseError>)
    ensures r.Success? <==> Tokenize(s).Success?
    ensures r.Success? ==> r.value.elements == Tokenize(s).value
    ensures r.Failure? ==> r.error == Tokenize(s).error
  {
    var elements := FindElements(s);
    match elements
    case Success(els) => return Success(MarkdownText(els));
    case Failure(e) => return Failure(e);
  }

  // ---------------------------------------------------------------------------
  // `clear`.
  // ---------------------------------------------------------------------------

  /** The chars of the class `[_~*]`. */
  predicate IsMarkup(c: char) {
    c == '_' || c == '~' || c == '*'
  }

  /** The chars `clear` keeps in the text of an element: all but the markup. */
  predicate IsPlainChar(c: char) {
    !IsMarkup(c)
  }

  /** `text.replace(Regex("[_~*]"), "")`: the text with every `_`, `~` and `*` removed. */
  function StripMarkup(t: string): (r: string)
    ensures |r| <= |t|
    ensures forall i :: 0 <= i < |r| ==> !IsMarkup(r[i])
    ensures forall c :: !IsMarkup(c) ==> multiset(r)[c] == multiset(t)[c]
  {
    KeepCounts(t, IsPlainChar);
    Keep(t, IsPlainChar)
  }

  /** Removing the markup works piece by piece, so the other chars stay in their order. */
  lemma StripMarkupAppend(a: string, b: string)
    ensures StripMarkup(a + b) == StripMarkup(a) + StripMarkup(b)
  {
    KeepAppend(a, b, IsPlainChar);
  }

  /** What `clear` keeps of one top-level element: a `Text` verbatim, any other element's text without markup. */
  function PlainText(e: Element): (r: string)
    ensures e.Text? ==> r == e.text
    ensures !e.Text? ==> forall i :: 0 <= i < |r| ==> !IsMarkup(r[i])
    ensures !e.Text? ==> forall c :: !IsMarkup(c) ==> multiset(r)[c] == multiset(e.text)[c]
  {
    if e.Text? then e.text else StripMarkup(e.text)
  }

  /** `joinToString("")` over the plain texts of `els`. */
  function JoinPlain(els: seq<Element>): string {
    if els == [] then [] else PlainText(els[0]) + JoinPlain(els[1..])
  }

  /** `clear`: the top-level elements of `s` flattened to their plain text, or the error parsing raised. */
  function Clear(s: string): (r: Result<string, ParseError>)
    ensures r.Success? <==> Tokenize(s).Success?
    ensures r.Failure? ==> r.error == Tokenize(s).error
  {
    match Tokenize(s)
    case Success(els) => Success(JoinPlain(els))
    case Failure(e) => Failure(e)
  }
}
