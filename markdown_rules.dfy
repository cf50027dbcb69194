/**
 * The twelve alternatives of `MarkdownParser.MARKDOWN_GROUPS`, compiled with
 * `Pattern.MULTILINE`, written as hand recognisers. Each `...At(s, i)` answers
 * where the alternative's match ends when the matcher tries it at index `i` of
 * `s`, following the order in which java.util.regex backtracks through lazy
 * and greedy quantifiers; `FirstMatch` is `Matcher.find(from)`.
 */
module MarkdownRules {
  import opened Wrappers
  import opened Chars

  /** `.` in java.util.regex: anything but a line terminator. */
  predicate IsDot(c: char) {
    !IsLineTerminator(c)
  }

  /** `^` under MULTILINE: the start of the input or just after a line terminator. */
  predicate LineStart(s: string, i: nat)
    requires i <= |s|
  {
    i == 0 || IsLineTerminator(s[i - 1])
  }

  /** `$` under MULTILINE: the end of the input or just before a line terminator. */
  predicate LineEnd(s: string, j: nat)
    requires j <= |s|
  {
    j == |s| || IsLineTerminator(s[j])
  }

  /** The first `$` position at or after `j`: where a greedy `.*` started at `j` stops. */
  function NextLineEnd(s: string, j: nat): (e: nat)
    requires j <= |s|
    ensures j <= e <= |s| && LineEnd(s, e)
    decreases |s| - j
  {
    if LineEnd(s, j) then j else NextLineEnd(s, j + 1)
  }

  /**
   * A greedy `.*` consumes only `.` chars, and stops at the FIRST line end:
   * every position it passes over is a `.` char and no line end.
   */
  lemma {:induction false} NextLineEndDots(s: string, j: nat)
    requires j <= |s|
    ensures forall k :: j <= k < NextLineEnd(s, j) ==> IsDot(s[k]) && !LineEnd(s, k)
    decreases |s| - j
  {
    if !LineEnd(s, j) {
      NextLineEndDots(s, j + 1);
    }
  }

  /** `n` copies of `d` start at index `c`; the delimiters here are at most three chars long. */
  predicate RunOf(s: string, c: nat, n: nat, d: char)
    requires n <= 3
  {
    && c + n <= |s|
    && (n >= 1 ==> s[c] == d)
    && (n >= 2 ==> s[c + 1] == d)
    && (n >= 3 ==> s[c + 2] == d)
  }

  /** The number of consecutive `#` chars starting at `i`. */
  function HashRun(s: string, i: nat): (n: nat)
    requires i <= |s|
    ensures i + n <= |s|
    ensures i + n < |s| ==> s[i + n] != '#'
    ensures forall k :: i <= k < i + n ==> s[k] == '#'
    decreases |s| - i
  {
    if i < |s| && s[i] == '#' then 1 + HashRun(s, i + 1) else 0
  }

  // ---------------------------------------------------------------------------
  // Groups 1, 2, 3 and 10: line items, `^<marker> .+$` (greedy) or `.+?$` (lazy),
  // which end at the same place because `.` cannot cross a line end.
  // ---------------------------------------------------------------------------

  /** Group 1, `^[*+-] .+$`: the marker, a space and the whole rest of the line. */
  function UnorderedItemAt(s: string, i: nat): (r: Option<nat>)
    requires i < |s|
    ensures r.Some? <==> LineStart(s, i) && i + 2 < |s| && s[i] in "*+-" && s[i + 1] == ' ' && IsDot(s[i + 2])
    ensures r.Some? ==> i + 3 <= r.value <= |s| && LineEnd(s, r.value)
    ensures r.Some? ==> r.value == NextLineEnd(s, i + 2)
  {
    if LineStart(s, i) && i + 2 < |s| && s[i] in "*+-" && s[i + 1] == ' ' && IsDot(s[i + 2])
    then Some(NextLineEnd(s, i + 3)) else None
  }

  /**
   * Group 2, `^#{1,6} .+?$`: greedy `#{1,6}` can only be followed by the space
   * after the whole run, and the lazy `.+?` stops at the first line end.
   */
  function HeaderAt(s: string, i: nat): (r: Option<nat>)
    requires i < |s|
    ensures r.Some? <==> (var n := HashRun(s, i);
      LineStart(s, i) && 1 <= n <= 6 && i + n + 1 < |s| && s[i + n] == ' ' && IsDot(s[i + n + 1]))
    ensures r.Some? ==> 1 <= HashRun(s, i) <= 6 && i + HashRun(s, i) < |s| && s[i + HashRun(s, i)] == ' '
    ensures r.Some? ==> i + HashRun(s, i) + 2 <= r.value <= |s| && LineEnd(s, r.value)
    ensures r.Some? ==> r.value == NextLineEnd(s, i + HashRun(s, i) + 1)
  {
    var n := HashRun(s, i);
    if LineStart(s, i) && 1 <= n <= 6 && i + n + 1 < |s| && s[i + n] == ' ' && IsDot(s[i + n + 1])
    then Some(NextLineEnd(s, i + n + 2)) else None
  }

  /** Group 3, `^> .+?$`: the lazy `.+?` stops at the first line end, so the quote is the whole line. */
  function QuoteAt(s: string, i: nat): (r: Option<nat>)
    requires i < |s|
    ensures r.Some? <==> LineStart(s, i) && i + 2 < |s| && s[i] == '>' && s[i + 1] == ' ' && IsDot(s[i + 2])
    ensures r.Some? ==> i + 3 <= r.value <= |s| && LineEnd(s, r.value)
    ensures r.Some? ==> r.value == NextLineEnd(s, i + 2)
  {
    if LineStart(s, i) && i + 2 < |s| && s[i] == '>' && s[i + 1] == ' ' && IsDot(s[i + 2])
    then Some(NextLineEnd(s, i + 3)) else None
  }

  /** Group 10, `^\d\. .+$`: a digit, a dot, a space and the whole rest of the line. */
  function OrderedItemAt(s: string, i: nat): (r: Option<nat>)
    requires i < |s|
    ensures r.Some? <==> LineStart(s, i) && i + 3 < |s| && IsDigit(s[i]) && s[i + 1] == '.' && s[i + 2] == ' ' && IsDot(s[i + 3])
    ensures r.Some? ==> i + 4 <= r.value <= |s| && LineEnd(s, r.value)
    ensures r.Some? ==> r.value == NextLineEnd(s, i + 3)
  {
    if LineStart(s, i) && i + 3 < |s| && IsDigit(s[i]) && s[i + 1] == '.' && s[i + 2] == ' ' && IsDot(s[i + 3])
    then Some(NextLineEnd(s, i + 4)) else None
  }

  // ---------------------------------------------------------------------------
  // Groups 4, 5, 6 and 8: `(?<!D)D{n}[^X].*?[^X]?D{n}(?!D)`.
  // ---------------------------------------------------------------------------

  /** `D{n}(?!D)` at `c`: exactly the closing delimiter, not followed by another `d`. */
  predicate ClosesAt(s: string, c: nat, d: char, n: nat)
    requires n <= 3
  {
    RunOf(s, c, n, d) && (c + n == |s| || s[c + n] != d)
  }

  /**
   * The tail `.*?[^X]?D{n}(?!D)` once `.*?` has consumed everything before `q`:
   * the optional `[^X]` is tried with one char before it is tried empty, and
   * only then does the lazy `.*?` take one more char.
   */
  function LazyClose(s: string, q: nat, d: char, n: nat, excl: set<char>): (r: Option<nat>)
    requires q <= |s| && n <= 3
    ensures r.Some? ==> q + n <= r.value <= |s| && ClosesAt(s, r.value - n, d, n)
    decreases |s| - q
  {
    if q < |s| && s[q] !in excl && ClosesAt(s, q + 1, d, n) then Some(q + 1 + n)
    else if ClosesAt(s, q, d, n) then Some(q + n)
    else if q < |s| && IsDot(s[q]) then LazyClose(s, q + 1, d, n, excl)
    else None
  }

  /**
   * Where the lazy `.*?` can stop once it has consumed everything before `p`:
   * the optional `[^X]` takes `s[p]` and the closing run follows, or the
   * closing run starts at `p` itself.
   */
  predicate CloseStep(s: string, p: nat, d: char, n: nat, excl: set<char>)
    requires n <= 3
  {
    (p < |s| && s[p] !in excl && ClosesAt(s, p + 1, d, n)) || ClosesAt(s, p, d, n)
  }

  /**
   * The first position from `q` on where the lazy `.*?` can stop, or one past
   * the line end when there is none: `.*?` consumes only `.` chars.
   */
  function CloseFrom(s: string, q: nat, d: char, n: nat, excl: set<char>): (p: nat)
    requires q <= |s| && n <= 3
    ensures q <= p <= NextLineEnd(s, q) + 1
    ensures p <= NextLineEnd(s, q) ==> CloseStep(s, p, d, n, excl)
    ensures forall k :: q <= k < p ==> !CloseStep(s, k, d, n, excl)
    decreases |s| - q
  {
    if CloseStep(s, q, d, n, excl) then q
    else if q < |s| && IsDot(s[q]) then CloseFrom(s, q + 1, d, n, excl)
    else q + 1
  }

  /**
   * The lazy `.*?` stops at the FIRST position where a closing run can
   * follow, and there the optional `[^X]` is tried before the empty one.
   */
  lemma {:induction false} LazyCloseFirst(s: string, q: nat, d: char, n: nat, excl: set<char>)
    requires q <= |s| && n <= 3
    ensures var p := CloseFrom(s, q, d, n, excl);
            LazyClose(s, q, d, n, excl)
            == if p > NextLineEnd(s, q) then None
               else if p < |s| && s[p] !in excl && ClosesAt(s, p + 1, d, n) then Some(p + 1 + n)
               else Some(p + n)
    decreases |s| - q
  {
    if !CloseStep(s, q, d, n, excl) && q < |s| && IsDot(s[q]) {
      LazyCloseFirst(s, q + 1, d, n, excl);
    }
  }

  /** The opening `(?<!D)D{n}[^X]` at `i`. */
  predicate OpensAt(s: string, i: nat, d: char, n: nat, excl: set<char>)
    requires i <= |s| && n <= 3
  {
    (i == 0 || s[i - 1] != d) && RunOf(s, i, n, d) && i + n < |s| && s[i + n] !in excl
  }

  /** A whole `(?<!D)D{n}[^X].*?[^X]?D{n}(?!D)` alternative at `i`. */
  function DelimitedAt(s: string, i: nat, d: char, n: nat, excl: set<char>): (r: Option<nat>)
    requires i < |s| && 1 <= n <= 3
    ensures r.Some? ==> i + 2 * n + 1 <= r.value <= |s| && s[i] == d
  {
    if OpensAt(s, i, d, n, excl) then LazyClose(s, i + n + 1, d, n, excl) else None
  }

  /**
   * A delimited alternative matches at `i` exactly when it opens there and a
   * closing run can follow somewhere on the rest of the line; it then ends
   * at the first such run.
   */
  lemma DelimitedAtFirst(s: string, i: nat, d: char, n: nat, excl: set<char>)
    requires i < |s| && 1 <= n <= 3
    ensures var q := i + n + 1;
            var p := if q <= |s| then CloseFrom(s, q, d, n, excl) else 0;
            DelimitedAt(s, i, d, n, excl)
            == if !OpensAt(s, i, d, n, excl) || p > NextLineEnd(s, q) then None
               else if p < |s| && s[p] !in excl && ClosesAt(s, p + 1, d, n) then Some(p + 1 + n)
               else Some(p + n)
  {
    if OpensAt(s, i, d, n, excl) {
      LazyCloseFirst(s, i + n + 1, d, n, excl);
    }
  }


  /** Group 4, `(?<!\*)\*[^*].*?[^*]?\*(?!\*)|(?<!_)_[^_].*?[^_]?_(?!_)`. */
  function ItalicAt(s: string, i: nat): (r: Option<nat>)
    requires i < |s|
    ensures r.Some? ==> i + 3 <= r.value <= |s|
  {
    var star := DelimitedAt(s, i, '*', 1, {'*'});
    if star.Some? then star else DelimitedAt(s, i, '_', 1, {'_'})
  }

  /** Group 5, the same shape with doubled `*` or `_`. */
  function BoldAt(s: string, i: nat): (r: Option<nat>)
    requires i < |s|
    ensures r.Some? ==> i + 5 <= r.value <= |s|
  {
    var star := DelimitedAt(s, i, '*', 2, {'*'});
    if star.Some? then star else DelimitedAt(s, i, '_', 2, {'_'})
  }

  /** Group 6, `(?<!~)~{2}[^*].*?[^*]?~{2}(?!~)`: the inner classes exclude `*`, not `~`. */
  function StrikeAt(s: string, i: nat): (r: Option<nat>)
    requires i < |s|
    ensures r.Some? ==> i + 5 <= r.value <= |s|
  {
    DelimitedAt(s, i, '~', 2, {'*'})
  }

  /** The class `[^`\s]` excludes a backtick and the six `\s` chars. */
  const CodeExcluded: set<char> := {'`', ' ', '\t', '\n', '\U{000B}', '\U{000C}', '\r'}

  /** Group 8, `(?<!`)`[^`\s].*?[^`\s]?`(?!`)`. */
  function InlineCodeAt(s: string, i: nat): (r: Option<nat>)
    requires i < |s|
    ensures r.Some? ==> i + 3 <= r.value <= |s|
  {
    DelimitedAt(s, i, '`', 1, CodeExcluded)
  }

  // ---------------------------------------------------------------------------
  // Group 7: `^[*-_]{3}$`.
  // ---------------------------------------------------------------------------

  /** A char of the class `[*-_]`, which is the RANGE from `*` (0x2A) to `_` (0x5F). */
  predicate InRuleRange(c: char) {
    '*' <= c <= '_'
  }

  /** Group 7 as written, `^[*-_]{3}$`: a line of exactly three chars of the range `*`..`_`. */
  function RuleLineAsWrittenAt(s: string, i: nat): (r: Option<nat>)
    requires i < |s|
    ensures r.Some? <==> (LineStart(s, i) && i + 3 <= |s| && LineEnd(s, i + 3)
      && InRuleRange(s[i]) && InRuleRange(s[i + 1]) && InRuleRange(s[i + 2]))
    ensures r.Some? ==> r.value == i + 3
  {
    if LineStart(s, i) && i + 3 <= |s| && InRuleRange(s[i]) && InRuleRange(s[i + 1]) && InRuleRange(s[i + 2])
       && LineEnd(s, i + 3)
    then Some(i + 3) else None
  }

  /** A char of the class `[*\-_]`: the three horizontal-rule markers. */
  predicate IsRuleMarker(c: char) {
    c == '*' || c == '-' || c == '_'
  }

  /** Group 7 as intended, `^[*\-_]{3}$`: a line of exactly three of `*`, `-`, `_`. */
  function RuleLineAt(s: string, i: nat): (r: Option<nat>)
    requires i < |s|
    ensures r.Some? <==> (LineStart(s, i) && i + 3 <= |s| && LineEnd(s, i + 3)
      && IsRuleMarker(s[i]) && IsRuleMarker(s[i + 1]) && IsRuleMarker(s[i + 2]))
    ensures r.Some? ==> r.value == i + 3
  {
    if LineStart(s, i) && i + 3 <= |s| && IsRuleMarker(s[i]) && IsRuleMarker(s[i + 1]) && IsRuleMarker(s[i + 2])
       && LineEnd(s, i + 3)
    then Some(i + 3) else None
  }

  // ---------------------------------------------------------------------------
  // Group 9: `\[[^\[\]]*?]\(.+?\)|^\[*?]\(.*?\)`.
  // ---------------------------------------------------------------------------

  /** `.*?\)` once the lazy `.*?` has consumed everything before `r`. */
  function LazyToParen(s: string, r: nat): (e: Option<nat>)
    requires r <= |s|
    ensures e.Some? ==> r < e.value <= |s| && s[e.value - 1] == ')'
    ensures e.Some? ==> forall k :: r <= k < e.value - 1 ==> IsDot(s[k]) && s[k] != ')'
    ensures e.None? ==> forall k :: r <= k < NextLineEnd(s, r) ==> s[k] != ')'
    decreases |s| - r
  {
    if r < |s| && s[r] == ')' then Some(r + 1)
    else if r < |s| && IsDot(s[r]) then LazyToParen(s, r + 1)
    else None
  }

  /** `.+?\)` at `p`. */
  function LazyPlusToParen(s: string, p: nat): (e: Option<nat>)
    requires p <= |s|
    ensures e.Some? ==> p + 2 <= e.value <= |s|
  {
    if p < |s| && IsDot(s[p]) then LazyToParen(s, p + 1) else None
  }

  /** The chars the class `[^\[\]]` refuses. */
  predicate IsBracket(c: char) {
    c == '[' || c == ']'
  }

  /** The first bracket at or after `q`, or `|s|` when there is none. */
  function NextBracket(s: string, q: nat): (b: nat)
    requires q <= |s|
    ensures q <= b <= |s| && (b < |s| ==> IsBracket(s[b]))
    ensures forall k :: q <= k < b ==> !IsBracket(s[k])
    decreases |s| - q
  {
    if q == |s| || IsBracket(s[q]) then q else NextBracket(s, q + 1)
  }

  /** `[^\[\]]*?]\(.+?\)` once the lazy class has consumed everything before `q`. */
  function LinkTail(s: string, q: nat): (e: Option<nat>)
    requires q <= |s|
    ensures e.Some? ==> q + 4 <= e.value <= |s|
    decreases |s| - q
  {
    if q + 1 < |s| && s[q] == ']' && s[q + 1] == '(' && LazyPlusToParen(s, q + 2).Some? then LazyPlusToParen(s, q + 2)
    else if q < |s| && s[q] != '[' && s[q] != ']' then LinkTail(s, q + 1)
    else None
  }

  /**
   * The lazy class cannot pass a bracket, so the link's tail is decided at
   * the first bracket `b` from `q` on: a `](` there followed by `.+?\)`, or
   * no match at all.
   */
  lemma {:induction false} LinkTailAtBracket(s: string, q: nat)
    requires q <= |s|
    ensures var b := NextBracket(s, q);
            LinkTail(s, q) == (if b + 1 < |s| && s[b] == ']' && s[b + 1] == '(' then LazyPlusToParen(s, b + 2) else None)
    decreases |s| - q
  {
    if q == |s| || IsBracket(s[q]) {
    } else {
      LinkTailAtBracket(s, q + 1);
    }
  }

  /** `\[*?]\(.*?\)` once the lazy `\[*?` has consumed everything before `q`. */
  function BracketsToParen(s: string, q: nat): (e: Option<nat>)
    requires q <= |s|
    ensures e.Some? ==> q + 3 <= e.value <= |s|
    decreases |s| - q
  {
    if q + 1 < |s| && s[q] == ']' && s[q + 1] == '(' && LazyToParen(s, q + 2).Some? then LazyToParen(s, q + 2)
    else if q < |s| && s[q] == '[' then BracketsToParen(s, q + 1)
    else None
  }

  /** Group 9. */
  function LinkAt(s: string, i: nat): (r: Option<nat>)
    requires i < |s|
    ensures r.Some? ==> i + 3 <= r.value <= |s|
  {
    if s[i] == '[' && LinkTail(s, i + 1).Some? then LinkTail(s, i + 1)
    else if LineStart(s, i) then BracketsToParen(s, i)
    else None
  }

  // ---------------------------------------------------------------------------
  // Group 11: `^`{3}[\s\S]+?`{3}$`.
  // ---------------------------------------------------------------------------

  /** `` `{3}$ `` at `k`: three backticks that end a line. */
  predicate FenceAt(s: string, k: nat) {
    RunOf(s, k, 3, '`') && LineEnd(s, k + 3)
  }

  /**
   * `` `{3}$ `` tried at `c`, then at `c + 1`, ...: the lazy `[\s\S]+?` may
   * take any char, so the block ends at the first closing fence from `c` on.
   */
  function FenceClose(s: string, c: nat): (e: Option<nat>)
    requires c <= |s|
    ensures e.Some? ==> c + 3 <= e.value <= |s| && FenceAt(s, e.value - 3)
    ensures e.Some? ==> forall k :: c <= k < e.value - 3 ==> !FenceAt(s, k)
    ensures e.None? ==> forall k :: c <= k <= |s| ==> !FenceAt(s, k)
    decreases |s| - c
  {
    if FenceAt(s, c) then Some(c + 3)
    else if c < |s| then FenceClose(s, c + 1)
    else None
  }

  /** Group 11. */
  function BlockCodeAt(s: string, i: nat): (r: Option<nat>)
    requires i < |s|
    ensures r.Some? ==> i + 7 <= r.value <= |s|
  {
    if LineStart(s, i) && RunOf(s, i, 3, '`') && i + 3 < |s| then FenceClose(s, i + 4) else None
  }

  // ---------------------------------------------------------------------------
  // Group 12: `^!?\[[^\[\]]*?]\(.+?(\".*\")?\)|^\[*?]\(.*?(\".*\")?\)`.
  // ---------------------------------------------------------------------------

  /** A title's closing quote at `k`, followed by the `)` that ends the image. */
  predicate QuoteCloseAt(s: string, k: nat) {
    k + 1 < |s| && s[k] == '"' && s[k + 1] == ')'
  }

  /**
   * Backtracking of a greedy `.*` started at `a` and run up to `m`, looking
   * for `"\)` at `m - 1`, `m - 2`, ...: the LAST such pair before `m`.
   */
  function QuoteParenBefore(s: string, a: nat, m: nat): (e: Option<nat>)
    requires a <= m <= |s|
    ensures e.Some? ==> a + 2 <= e.value <= |s|
    ensures e.Some? ==> e.value - 2 < m && QuoteCloseAt(s, e.value - 2)
    ensures e.Some? ==> forall k :: e.value - 2 < k < m ==> !QuoteCloseAt(s, k)
    ensures e.None? ==> forall k :: a <= k < m ==> !QuoteCloseAt(s, k)
    decreases m
  {
    if m == a then None
    else if s[m - 1] == '"' && m < |s| && s[m] == ')' then Some(m + 1)
    else QuoteParenBefore(s, a, m - 1)
  }

  /** `.*?(\".*\")?\)` once the lazy `.*?` has consumed everything before `r`. */
  function TitledToParen(s: string, r: nat): (e: Option<nat>)
    requires r <= |s|
    ensures e.Some? ==> r < e.value <= |s|
    decreases |s| - r
  {
    if r < |s| && s[r] == '"' && QuoteParenBefore(s, r + 1, NextLineEnd(s, r + 1)).Some? then
      QuoteParenBefore(s, r + 1, NextLineEnd(s, r + 1))
    else if r < |s| && s[r] == ')' then Some(r + 1)
    else if r < |s| && IsDot(s[r]) then TitledToParen(s, r + 1)
    else None
  }

  /** Where the lazy `.*?` before an optional title can stop: at a title closed by `")`, or at a bare `)`. */
  predicate TitleStop(s: string, p: nat) {
    p < |s| && ((s[p] == '"' && p + 1 <= |s| && QuoteParenBefore(s, p + 1, NextLineEnd(s, p + 1)).Some?) || s[p] == ')')
  }

  /** The first title or `)` from `r` on, or one past the line end when there is none. */
  function TitleFrom(s: string, r: nat): (p: nat)
    requires r <= |s|
    ensures r <= p <= NextLineEnd(s, r) + 1
    ensures p <= NextLineEnd(s, r) ==> TitleStop(s, p)
    ensures forall k :: r <= k < p ==> !TitleStop(s, k)
    decreases |s| - r
  {
    if TitleStop(s, r) then r
    else if r < |s| && IsDot(s[r]) then TitleFrom(s, r + 1)
    else r + 1
  }

  /**
   * The lazy `.*?` stops at the FIRST title or `)` on the rest of the line;
   * a title then runs, greedily, to the last `")` of its line.
   */
  lemma {:induction false} TitledToParenFirst(s: string, r: nat)
    requires r <= |s|
    ensures var p := TitleFrom(s, r);
            TitledToParen(s, r)
            == if p > NextLineEnd(s, r) then None
               else if s[p] == '"' then QuoteParenBefore(s, p + 1, NextLineEnd(s, p + 1))
               else Some(p + 1)
    decreases |s| - r
  {
    if !TitleStop(s, r) && r < |s| && IsDot(s[r]) {
      TitledToParenFirst(s, r + 1);
    }
  }


  /** `[^\[\]]*?]\(.+?(\".*\")?\)` once the lazy class has consumed everything before `q`. */
  function ImageTail(s: string, q: nat): (e: Option<nat>)
    requires q <= |s|
    ensures e.Some? ==> q + 4 <= e.value <= |s|
    decreases |s| - q
  {
    if q + 2 < |s| && s[q] == ']' && s[q + 1] == '(' && IsDot(s[q + 2]) && TitledToParen(s, q + 3).Some? then
      TitledToParen(s, q + 3)
    else if q < |s| && s[q] != '[' && s[q] != ']' then ImageTail(s, q + 1)
    else None
  }

  /**
   * As for links, the lazy class cannot pass a bracket: the image's tail is
   * decided at the first bracket `b` from `q` on, by a `](` there followed by
   * a `.` and the titled `\)`.
   */
  lemma {:induction false} ImageTailAtBracket(s: string, q: nat)
    requires q <= |s|
    ensures var b := NextBracket(s, q);
            ImageTail(s, q) == (if b + 2 < |s| && s[b] == ']' && s[b + 1] == '(' && IsDot(s[b + 2])
                                then TitledToParen(s, b + 3) else None)
    decreases |s| - q
  {
    if q == |s| || IsBracket(s[q]) {
    } else {
      ImageTailAtBracket(s, q + 1);
    }
  }

  /** `\[*?]\(.*?(\".*\")?\)` once the lazy `\[*?` has consumed everything before `q`. */
  function BracketsToTitledParen(s: string, q: nat): (e: Option<nat>)
    requires q <= |s|
    ensures e.Some? ==> q + 3 <= e.value <= |s|
    decreases |s| - q
  {
    if q + 1 < |s| && s[q] == ']' && s[q + 1] == '(' && TitledToParen(s, q + 2).Some? then TitledToParen(s, q + 2)
    else if q < |s| && s[q] == '[' then BracketsToTitledParen(s, q + 1)
    else None
  }

  /** Group 12: the greedy `!?` takes a `!` when there is one. */
  function ImageAt(s: string, i: nat): (r: Option<nat>)
    requires i < |s|
    ensures r.Some? ==> i + 3 <= r.value <= |s|
  {
    if !LineStart(s, i) then None
    else
      var first :=
        if s[i] == '!' then (if i + 1 < |s| && s[i + 1] == '[' then ImageTail(s, i + 2) else None)
        else if s[i] == '[' then ImageTail(s, i + 1)
        else None;
      if first.Some? then first else BracketsToTitledParen(s, i)
  }

  // ---------------------------------------------------------------------------
  // The composite pattern.
  // ---------------------------------------------------------------------------

  /** The fewest chars a match of group `g` can span past its opening (the header's is larger). */
  function MinSpan(g: nat): nat {
    if g == 11 then 7 else if g == 5 || g == 6 then 5 else if g == 10 then 4 else 3
  }

  /** Alternative `g` (1..12) of the composite pattern tried at `i`: where its match ends. */
  function MatchRule(s: string, i: nat, g: nat): (r: Option<nat>)
    requires i < |s| && 1 <= g <= 12
    ensures r.Some? ==> i + MinSpan(g) <= r.value <= |s|
    ensures r.Some? && g == 2 ==> 1 <= HashRun(s, i) <= 6 && i + HashRun(s, i) + 2 <= r.value
    ensures r.Some? && g == 7 ==> r.value == i + 3 && InRuleRange(s[i]) && InRuleRange(s[i + 1]) && InRuleRange(s[i + 2])
    ensures r.Some? && g == 10 ==> IsDigit(s[i])
    ensures r.Some? && g == 12 ==> LineStart(s, i)
  {
    match g
    case 1 => UnorderedItemAt(s, i)
    case 2 => HeaderAt(s, i)
    case 3 => QuoteAt(s, i)
    case 4 => ItalicAt(s, i)
    case 5 => BoldAt(s, i)
    case 6 => StrikeAt(s, i)
    case 7 => RuleLineAsWrittenAt(s, i)
    case 8 => InlineCodeAt(s, i)
    case 9 => LinkAt(s, i)
    case 10 => OrderedItemAt(s, i)
    case 11 => BlockCodeAt(s, i)
    case 12 => ImageAt(s, i)
  }

  /** Which alternative matched and where the match ends. */
  datatype Hit = Hit(group: nat, end: nat)

  /** The alternatives `g`, `g + 1`, ..., 12 tried in order at `i`: the first that matches wins. */
  function RuleFrom(s: string, i: nat, g: nat): (r: Option<Hit>)
    requires i < |s| && 1 <= g <= 13
    ensures r.Some? ==> g <= r.value.group <= 12 && MatchRule(s, i, r.value.group) == Some(r.value.end)
    ensures r.Some? ==> forall h :: g <= h < r.value.group ==> MatchRule(s, i, h).None?
    ensures r.None? ==> forall h :: g <= h <= 12 ==> MatchRule(s, i, h).None?
    decreases 13 - g
  {
    if g == 13 then None
    else if MatchRule(s, i, g).Some? then Some(Hit(g, MatchRule(s, i, g).value))
    else RuleFrom(s, i, g + 1)
  }

  /** The first of the capture groups `1..12` that the selection loop inspects. */
  const FirstGroup: nat := 1

  /** The composite pattern tried at `i`: the lowest-numbered group that captures. */
  function RuleAt(s: string, i: nat): (r: Option<Hit>)
    requires i < |s|
    ensures r.Some? ==> 1 <= r.value.group <= 12 && MatchRule(s, i, r.value.group) == Some(r.value.end)
    ensures r.Some? ==> forall h :: 1 <= h < r.value.group ==> MatchRule(s, i, h).None?
    ensures r.None? ==> forall h :: 1 <= h <= 12 ==> MatchRule(s, i, h).None?
  {
    RuleFrom(s, i, FirstGroup)
  }

  /** One match of the composite pattern: `s[start..end]`, captured by group `group`. */
  datatype Match = Match(start: nat, end: nat, group: nat)

  /** `m` is what the matcher reports when it finds a match starting at `m.start`. */
  predicate IsMatch(s: string, m: Match) {
    m.start < |s| && RuleAt(s, m.start) == Some(Hit(m.group, m.end))
  }

  /** The facts about a match that building its element relies on. */
  predicate Shaped(s: string, m: Match) {
    && m.start < m.end <= |s| && 1 <= m.group <= 12 && m.start + MinSpan(m.group) <= m.end
    && (m.group == 2 ==> 1 <= HashRun(s, m.start) <= 6 && m.start + HashRun(s, m.start) + 2 <= m.end)
    && (m.group == 10 ==> IsDigit(s[m.start]))
  }

  /** The composite pattern matches at no index of `lo..hi`. */
  predicate NoMatchBetween(s: string, lo: nat, hi: nat)
    requires hi <= |s|
    decreases hi - lo
  {
    lo >= hi || (RuleAt(s, lo).None? && NoMatchBetween(s, lo + 1, hi))
  }

  /** A match has the shape its group promises. */
  lemma MatchShaped(s: string, m: Match)
    requires IsMatch(s, m)
    ensures Shaped(s, m)
  {
    assert MatchRule(s, m.start, m.group) == Some(m.end);
  }

  /**
   * `Matcher.find(from)`: the leftmost start at or after `from` where the
   * composite pattern matches, with the group that captured there.
   */
  function FirstMatch(s: string, from: nat): (r: Option<Match>)
    requires from <= |s|
    ensures r.Some? ==> IsMatch(s, r.value) && from <= r.value.start && NoMatchBetween(s, from, r.value.start)
    ensures r.None? ==> NoMatchBetween(s, from, |s|)
    decreases |s| - from
  {
    if from == |s| then None
    else match RuleAt(s, from)
      case Some(h) => Some(Match(from, h.end, h.group))
      case None => FirstMatch(s, from + 1)
  }
}
