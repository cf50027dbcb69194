# Skill-branch core in Dafny

This project models three parts of the Skill-branch Android application and
proves properties about them:

- **The article Markdown parser.** `MarkdownParser` splits an article's text
  into a list of `Element`s using one composite regular expression made of
  twelve alternatives (list items, headers, quotes, italic, bold,
  strike-through, horizontal rules, inline code, links, ordered items, block
  code, images). It recurses into the inner text of the container elements.
  `clear` flattens the parse back to plain text. The regex alternatives are
  written as hand recognisers that follow the way java.util.regex backtracks
  (module `MarkdownRules`). `findElements` is a loop over `Matcher.find` and
  is modelled as a method proved equal to a recursive specification,
  `Tokenize` (module `MarkdownParser`). The properties are in
  `MarkdownProperties`:
  - the elements and the gaps between them tile the input;
  - the elements are well formed;
  - `clear` never lengthens the text;
  - an input with no markup parses to a single `Text`.

  The recognisers follow the patterns as written, including the rule class
  `[*-_]`, which is a char range (see "## Findings"). The corrected class is
  modelled beside it and compared with it.
- **The article screen state.** `ArticleViewModel` keeps an immutable
  `ArticleState` and replaces it with a `copy` in each of its menu and search
  handlers. The search handler stores the ranges of every case-insensitive
  occurrence of the query, found by the extension `String?.indexesOf`
  (module `StringSearch`, a loop method proved sound, complete and
  increasing). The state and its transitions are values (`ArticleStates`).
  The view model is a class whose handlers update its `currentState` field
  (`ArticleViewModels`).
- **The user registry of the Kotlin exercise.** `User` (module `Users`) is a
  class whose phone, login, salt, password hash and access code change in
  place. A ghost `password` field records the secret the hash was made from,
  and `Valid()` ties the hash to it. `UserHolder` (module `UserHolders`) is
  the singleton map from login to user, with registration, login and
  access-code refresh.

Randomness and hashing are parameters of the model:
- MD5 is an arbitrary function `hash: string -> string`;
- the salt that `SecureRandom` produces is a non-empty string `randomSalt`;
- the six `POSSIBLE_CHARS.random()` draws are a sequence of six indices
  `picks`.

The Kotlin `!!` on a failed link or image destructuring, and the
`IllegalArgumentException` and `IllegalStateException` the user code throws,
are modelled as `Failure` results.

## Model

| member | source | states |
|---|---|---|
| Chars.ToLower | app/src/main/java/ru/skillbranch/kotlinexample/User.kt:52 | lower-casing keeps a letter a letter, and leaves every non-letter (digits and `+` among them) unchanged |
| Chars.ToUpper | app/src/main/java/ru/skillbranch/kotlinexample/User.kt:38 | upper-casing keeps a letter a letter and leaves every non-letter unchanged |
| Chars.LowerCase | app/src/main/java/ru/skillbranch/kotlinexample/User.kt:52 | lower-casing a string keeps its length and lower-cases each char in place |
| Chars.LowerCaseIdempotent | app/src/main/java/ru/skillbranch/kotlinexample/User.kt:49-54 | a login that has been lower-cased once is unchanged by lower-casing it again |
| Chars.UpperIsNotLower | app/src/main/java/ru/skillbranch/kotlinexample/User.kt:36-39 | an upper-cased char is never a lower-case letter |
| Chars.ToLowerIdempotent | app/src/main/java/ru/skillbranch/kotlinexample/User.kt:52 | lower-casing a char twice is the same as lower-casing it once |
| Chars.LeadingWhitespace | app/src/main/java/ru/skillbranch/skillarticles/data/repositories/MarkdownParser.kt:146 | the count of leading whitespace chars is at most the length, and the char after that many is not whitespace |
| Chars.TrailingWhitespace | app/src/main/java/ru/skillbranch/skillarticles/data/repositories/MarkdownParser.kt:146 | the count of trailing whitespace chars is at most the length, and the char before that many is not whitespace |
| Chars.Trim | app/src/main/java/ru/skillbranch/skillarticles/data/repositories/MarkdownParser.kt:146 | `trim()` gives the infix of the text between its leading and its trailing whitespace: the text from the end of the leading run, with only whitespace before and after it; the result neither starts nor ends with whitespace, is empty exactly when the input is blank, and is the identity when nothing needs trimming |
| Chars.Keep | app/src/main/java/ru/skillbranch/kotlinexample/User.kt:46 | deleting every char outside a class leaves only chars of the class and never lengthens the text; the order of the kept chars is stated by `KeepAppend` and `KeepSingle` |
| Chars.KeepCounts | app/src/main/java/ru/skillbranch/kotlinexample/User.kt:46 | the deletion keeps every occurrence of each kept char and removes every other char |
| Chars.KeepAll | app/src/main/java/ru/skillbranch/kotlinexample/User.kt:46 | a text made only of kept chars passes through unchanged |
| Chars.KeepAppend | app/src/main/java/ru/skillbranch/kotlinexample/User.kt:46 | deleting chars from a concatenation is deleting them from each part and concatenating, so the kept chars stay in their order |
| Chars.KeepSingle | app/src/main/java/ru/skillbranch/kotlinexample/User.kt:46 | a single char is kept exactly when the class admits it |
| StringSearch.IndexOf | app/src/main/java/ru/skillbranch/skillarticles/extensions/String.kt:8 | `indexOf(substr, from, ignoreCase)` gives the first occurrence at or after `from`, or -1 exactly when there is none |
| StringSearch.OccurrencesBelowSpec | app/src/main/java/ru/skillbranch/skillarticles/extensions/String.kt:3-16 | the occurrence list holds only real occurrence starts, in strictly increasing order, and holds every one of them |
| StringSearch.OccurrencesBelowSkip | app/src/main/java/ru/skillbranch/skillarticles/extensions/String.kt:7-14 | restarting the search one past a found occurrence loses no occurrence |
| StringSearch.IndexesOf | app/src/main/java/ru/skillbranch/skillarticles/extensions/String.kt:3-16 | a null receiver gives the empty list; otherwise the loop returns exactly the starts of all occurrences, increasing, each sound and none missed |
| StringSearch.EmptyNeedleEveryIndex | app/src/main/java/ru/skillbranch/skillarticles/extensions/String.kt:3-16 | an empty query occurs at every index of a non-empty receiver |
| MarkdownRules.NextLineEnd | app/src/main/java/ru/skillbranch/skillarticles/data/repositories/MarkdownParser.kt:7 | a greedy `.*` started at an index stops at a line end no earlier than that index and within the text, where `$` matches in MULTILINE mode |
| MarkdownRules.NextLineEndDots | app/src/main/java/ru/skillbranch/skillarticles/data/repositories/MarkdownParser.kt:7 | that line end is the FIRST one: every position a greedy `.*` passes over before it is a `.` char and no line end |
| MarkdownRules.HashRun | app/src/main/java/ru/skillbranch/skillarticles/data/repositories/MarkdownParser.kt:8 | the run of `#` chars stays in the text, every char of it is `#`, and the char after it is not `#` |
| MarkdownRules.UnorderedItemAt | app/src/main/java/ru/skillbranch/skillarticles/data/repositories/MarkdownParser.kt:7 | group 1 matches exactly at a line start with one of `*+-`, a space and a non-terminator, and then ends at the first line end after the marker |
| MarkdownRules.HeaderAt | app/src/main/java/ru/skillbranch/skillarticles/data/repositories/MarkdownParser.kt:8 | group 2 matches exactly at a line start with one to six `#`, a space and a non-terminator (the greedy `#{1,6}` can only be followed by the space after the whole run), and ends at the first line end after them |
| MarkdownRules.QuoteAt | app/src/main/java/ru/skillbranch/skillarticles/data/repositories/MarkdownParser.kt:9 | group 3 matches exactly at a line start with `> ` and a non-terminator, and the lazy `.+?$` ends at the first line end |
| MarkdownRules.OrderedItemAt | app/src/main/java/ru/skillbranch/skillarticles/data/repositories/MarkdownParser.kt:17 | group 10 matches exactly at a line start with a digit, `.`, a space and a non-terminator, and ends at the first line end |
| MarkdownRules.LazyClose | app/src/main/java/ru/skillbranch/skillarticles/data/repositories/MarkdownParser.kt:10-15 | a lazily closed match ends right after a closing delimiter run that is not followed by another delimiter char |
| MarkdownRules.CloseFrom | app/src/main/java/ru/skillbranch/skillarticles/data/repositories/MarkdownParser.kt:10-15 | the first position on the rest of the line where the lazy `.*?` can stop (the optional `[^X]` then the closing run, or the run itself), with no such position before it; past the line end when there is none |
| MarkdownRules.LazyCloseFirst | app/src/main/java/ru/skillbranch/skillarticles/data/repositories/MarkdownParser.kt:10-15 | the lazy `.*?` stops at that first position, trying the optional `[^X]` with one char before the empty one; there is no match when no such position lies on the line |
| MarkdownRules.DelimitedAt | app/src/main/java/ru/skillbranch/skillarticles/data/repositories/MarkdownParser.kt:10-15 | a delimited match starts with its delimiter and is long enough for both delimiters around at least one char |
| MarkdownRules.DelimitedAtFirst | app/src/main/java/ru/skillbranch/skillarticles/data/repositories/MarkdownParser.kt:10-15 | a delimited alternative matches exactly when its opening (look-behind, run, `[^X]`) is there and a closing run can follow on the rest of the line, and then ends at the first such run |
| MarkdownRules.ItalicAt | app/src/main/java/ru/skillbranch/skillarticles/data/repositories/MarkdownParser.kt:10 | an italic match lies within the text and spans at least three chars |
| MarkdownRules.BoldAt | app/src/main/java/ru/skillbranch/skillarticles/data/repositories/MarkdownParser.kt:11-12 | a bold match lies within the text and spans at least five chars |
| MarkdownRules.StrikeAt | app/src/main/java/ru/skillbranch/skillarticles/data/repositories/MarkdownParser.kt:13 | a strike-through match lies within the text and spans at least five chars |
| MarkdownRules.InlineCodeAt | app/src/main/java/ru/skillbranch/skillarticles/data/repositories/MarkdownParser.kt:15 | an inline-code match lies within the text and spans at least three chars |
| MarkdownRules.RuleLineAsWrittenAt | app/src/main/java/ru/skillbranch/skillarticles/data/repositories/MarkdownParser.kt:14 | as written, a rule is a line of exactly three chars from the range `*`..`_`, in both directions |
| MarkdownRules.RuleLineAt | app/src/main/java/ru/skillbranch/skillarticles/data/repositories/MarkdownParser.kt:14 | as intended, a rule is a line of exactly three of `*`, `-`, `_`, in both directions |
| MarkdownRules.LinkTail | app/src/main/java/ru/skillbranch/skillarticles/data/repositories/MarkdownParser.kt:16 | where the rest of a link after `[` ends: within the text and at least four chars on (bounds only; `LinkTailAtBracket` states the exact result) |
| MarkdownRules.LazyToParen | app/src/main/java/ru/skillbranch/skillarticles/data/repositories/MarkdownParser.kt:16 | the lazy `.*?\)` stops at the first `)` after only `.` chars, and fails only when no `)` lies before the line end |
| MarkdownRules.NextBracket | app/src/main/java/ru/skillbranch/skillarticles/data/repositories/MarkdownParser.kt:16 | the first `[` or `]` at or after an index, with none before it, or the end of the text |
| MarkdownRules.LinkTailAtBracket | app/src/main/java/ru/skillbranch/skillarticles/data/repositories/MarkdownParser.kt:16 | the lazy `[^\[\]]*?` cannot pass a bracket, so a link tail matches exactly when the first bracket is a `]` followed by `(` and `.+?\)`, and ends there |
| MarkdownRules.LinkAt | app/src/main/java/ru/skillbranch/skillarticles/data/repositories/MarkdownParser.kt:16 | a link match lies within the text and spans at least three chars |
| MarkdownRules.FenceClose | app/src/main/java/ru/skillbranch/skillarticles/data/repositories/MarkdownParser.kt:18 | the lazy block body ends at the first three backticks that close a line, and fails only when no such fence follows |
| MarkdownRules.BlockCodeAt | app/src/main/java/ru/skillbranch/skillarticles/data/repositories/MarkdownParser.kt:18 | a block-code match spans two fences of three backticks around at least one char |
| MarkdownRules.QuoteParenBefore | app/src/main/java/ru/skillbranch/skillarticles/data/repositories/MarkdownParser.kt:19-20 | the greedy `(\".*\")` backs off to the LAST `")` before the limit, and none means there is no `")` there |
| MarkdownRules.TitleFrom | app/src/main/java/ru/skillbranch/skillarticles/data/repositories/MarkdownParser.kt:19-20 | the first position on the rest of the line where the image's lazy `.*?` can stop (a title closed by `")`, or a bare `)`), with none before it |
| MarkdownRules.TitledToParenFirst | app/src/main/java/ru/skillbranch/skillarticles/data/repositories/MarkdownParser.kt:19-20 | the lazy `.*?` stops at that first position; a title there runs greedily to the last `")` of its line, and otherwise the image ends after the `)` |
| MarkdownRules.ImageTail | app/src/main/java/ru/skillbranch/skillarticles/data/repositories/MarkdownParser.kt:19-20 | where the rest of an image after `[` ends: within the text and at least four chars on (bounds only; `ImageTailAtBracket` states the exact result) |
| MarkdownRules.ImageTailAtBracket | app/src/main/java/ru/skillbranch/skillarticles/data/repositories/MarkdownParser.kt:19-20 | as for links, an image tail is decided at the first bracket: a `](` there, a `.` char and the titled `)`, or no match |
| MarkdownRules.ImageAt | app/src/main/java/ru/skillbranch/skillarticles/data/repositories/MarkdownParser.kt:19-20 | an image match lies within the text and spans at least three chars |
| MarkdownRules.MatchRule | app/src/main/java/ru/skillbranch/skillarticles/data/repositories/MarkdownParser.kt:22-24 | each alternative's match lies within the text and spans at least that group's minimum; a header opens with 1 to 6 `#`; a rule (group 7, as written) is a three-char line of the range `*`..`_`; an ordered item opens with a digit; an image opens a line |
| MarkdownRules.RuleFrom | app/src/main/java/ru/skillbranch/skillarticles/data/repositories/MarkdownParser.kt:47-54 | the group reported is the first, from the given one up to 12, whose alternative matches; every earlier one fails; none means all fail |
| MarkdownRules.RuleAt | app/src/main/java/ru/skillbranch/skillarticles/data/repositories/MarkdownParser.kt:21-24 | the composite pattern at an index matches with the lowest-numbered alternative that matches there, and fails exactly when all twelve fail |
| MarkdownRules.MatchShaped | app/src/main/java/ru/skillbranch/skillarticles/data/repositories/MarkdownParser.kt:40-42 | every reported match lies within the text and is at least as long as its group's delimiters |
| MarkdownRules.FirstMatch | app/src/main/java/ru/skillbranch/skillarticles/data/repositories/MarkdownParser.kt:40 | `find(from)` reports the leftmost match at or after `from`, with nothing matching before it; none means nothing matches to the end |
| MarkdownParser.LastParenBefore | app/src/main/java/ru/skillbranch/skillarticles/data/repositories/MarkdownParser.kt:117 | the greedy `(.*)\)` backs off to the last `)` before the limit, and none means there is no `)` there |
| MarkdownParser.LinkSplit | app/src/main/java/ru/skillbranch/skillarticles/data/repositories/MarkdownParser.kt:117 | the split of a link ends the title at a `](` no later than the limit, and the link at a later `)` |
| MarkdownParser.LinkSplitFound | app/src/main/java/ru/skillbranch/skillarticles/data/repositories/MarkdownParser.kt:117 | where the title ends there is a `](` with a `)` after it on the line, and the link runs greedily to the last such `)` |
| MarkdownParser.LinkSplitLast | app/src/main/java/ru/skillbranch/skillarticles/data/repositories/MarkdownParser.kt:117 | the greedy title `(.*)` backs off only to the LAST `](` that a `)` follows, and none means there is no such `](` at all |
| MarkdownParser.LinkFrame | app/src/main/java/ru/skillbranch/skillarticles/data/repositories/MarkdownParser.kt:117 | the span at a split is `[title](link)` |
| MarkdownParser.LinkOpenAt | app/src/main/java/ru/skillbranch/skillarticles/data/repositories/MarkdownParser.kt:117 | the link pattern matches at an index only on a `[`, and then yields a `](` and a later `)` |
| MarkdownParser.LinkStart | app/src/main/java/ru/skillbranch/skillarticles/data/repositories/MarkdownParser.kt:117 | `find` gives a start at or after the resume index where the link pattern matches |
| MarkdownParser.LinkStartFirst | app/src/main/java/ru/skillbranch/skillarticles/data/repositories/MarkdownParser.kt:117 | that start is the leftmost: the pattern matches nowhere before it, and nowhere at all when there is none |
| MarkdownParser.LinkPartsAt | app/src/main/java/ru/skillbranch/skillarticles/data/repositories/MarkdownParser.kt:117 | the title and link at a start exist exactly when the pattern matches there, are the slices around its greedy split, and are framed as `[title](link)` |
| MarkdownParser.LinkParts | app/src/main/java/ru/skillbranch/skillarticles/data/repositories/MarkdownParser.kt:117 | the destructuring succeeds exactly when the link pattern matches somewhere in the text, and then yields the title and link of the leftmost match |
| MarkdownParser.QuoteThenParen | app/src/main/java/ru/skillbranch/skillarticles/data/repositories/MarkdownParser.kt:141 | the lazy `\".*?\"` title closes at the FIRST `")` on the rest of the line, and none means the line has none |
| MarkdownParser.ImageAddress | app/src/main/java/ru/skillbranch/skillarticles/data/repositories/MarkdownParser.kt:141 | the address ends at a `)`, and a title, when there is one, is quoted |
| MarkdownParser.ImageAddressStop | app/src/main/java/ru/skillbranch/skillarticles/data/repositories/MarkdownParser.kt:141 | the lazy address stops on its line at a place where the rest can match; the greedy `?` takes a title exactly when a `")` closes one, and the image then ends after that `")` |
| MarkdownParser.ImageAddressFirst | app/src/main/java/ru/skillbranch/skillarticles/data/repositories/MarkdownParser.kt:141 | the address stops at the FIRST such place, and there is no match when the line has none |
| MarkdownParser.ImageSplit | app/src/main/java/ru/skillbranch/skillarticles/data/repositories/MarkdownParser.kt:141 | an image splits into alt, address and an optional quoted title between a `](` no later than the limit and the `)` |
| MarkdownParser.ImageSplitFound | app/src/main/java/ru/skillbranch/skillarticles/data/repositories/MarkdownParser.kt:141 | where the alt ends there is a `](` after which the address matches, and the address and title are those it matches |
| MarkdownParser.ImageSplitLast | app/src/main/java/ru/skillbranch/skillarticles/data/repositories/MarkdownParser.kt:141 | the greedy alt `(.*)` backs off only to the LAST `](` after which the address matches, and none means there is no such `](` |
| MarkdownParser.ImageFrame | app/src/main/java/ru/skillbranch/skillarticles/data/repositories/MarkdownParser.kt:141 | the image text at a split is `![alt](link title)` |
| MarkdownParser.ImageParts | app/src/main/java/ru/skillbranch/skillarticles/data/repositories/MarkdownParser.kt:141-143 | the destructuring succeeds exactly when the text opens with `![` and splits; alt, link and title are the slices of that split, and with their five framing chars they spell the start of the text; the title is empty or quoted |
| MarkdownParser.Unquote | app/src/main/java/ru/skillbranch/skillarticles/data/repositories/MarkdownParser.kt:147 | a non-empty title loses exactly its surrounding quotes, and an empty one stays empty |
| MarkdownParser.HeaderLevel | app/src/main/java/ru/skillbranch/skillarticles/data/repositories/MarkdownParser.kt:68-69 | the level is the leading run of `#`, capped at six: every char before it is `#`, and below six the run stops there |
| MarkdownParser.HashRunOfSlice | app/src/main/java/ru/skillbranch/skillarticles/data/repositories/MarkdownParser.kt:68 | searching the matched slice sees the same `#` run as the whole text |
| MarkdownParser.LastNonLetter | app/src/main/java/ru/skillbranch/skillarticles/data/repositories/MarkdownParser.kt:126 | `indexOfLast { !it.isLetter() }` is the last non-letter, with only letters after it, or -1 |
| MarkdownParser.WithElements | app/src/main/java/ru/skillbranch/skillarticles/data/repositories/MarkdownParser.kt:62-63 | a container element gets the sub-elements exactly when parsing its inner text succeeded, and keeps its kind and text |
| MarkdownParser.Inner | app/src/main/java/ru/skillbranch/skillarticles/data/repositories/MarkdownParser.kt:61-133 | the inner text of a match is the match without its group's delimiters (2/0 chars for list items and quotes, 1/1 for italic and inline code, 2/2 for bold and strike, 3/0 for ordered items, 3/3 for block code), so it is strictly shorter and recursion on it terminates |
| MarkdownParser.Shell | app/src/main/java/ru/skillbranch/skillarticles/data/repositories/MarkdownParser.kt:60-138 | the element built for a group is of that group's kind, carries the inner text and has no children yet |
| MarkdownParser.Segments | app/src/main/java/ru/skillbranch/skillarticles/data/repositories/MarkdownParser.kt:40-45 | the pieces the loop visits are well-formed gaps and matches of the text |
| MarkdownParser.ConcatAssoc | app/src/main/java/ru/skillbranch/skillarticles/data/repositories/MarkdownParser.kt:44 | appending partial results is associative, failures included |
| MarkdownParser.BuildAllAppend | app/src/main/java/ru/skillbranch/skillarticles/data/repositories/MarkdownParser.kt:40-66 | building the elements of two runs of pieces is building each and appending |
| MarkdownParser.SegmentsUnfold | app/src/main/java/ru/skillbranch/skillarticles/data/repositories/MarkdownParser.kt:40-45 | from `lastStartIndex`, the pieces are the gap before the next match, that match, and the pieces after its end |
| MarkdownParser.SegmentsEnd | app/src/main/java/ru/skillbranch/skillarticles/data/repositories/MarkdownParser.kt:154-157 | once `find` fails, the remaining pieces are only the trailing text |
| MarkdownParser.LoopStep | app/src/main/java/ru/skillbranch/skillarticles/data/repositories/MarkdownParser.kt:40-66 | one loop iteration (gap text, then the element) keeps the loop invariant relating the elements so far to the specification |
| MarkdownParser.ElementFor | app/src/main/java/ru/skillbranch/skillarticles/data/repositories/MarkdownParser.kt:56-152 | the `when (group)` branch builds the element the specification prescribes, including the recursive parse and the failing `!!` |
| MarkdownParser.LeafFor | app/src/main/java/ru/skillbranch/skillarticles/data/repositories/MarkdownParser.kt:67-151 | the header, rule, link and image branches build the specified leaf element |
| MarkdownParser.FindElements | app/src/main/java/ru/skillbranch/skillarticles/data/repositories/MarkdownParser.kt:36-159 | the `find` loop returns exactly the recursive specification `Tokenize` of its input |
| MarkdownParser.Parse | app/src/main/java/ru/skillbranch/skillarticles/data/repositories/MarkdownParser.kt:26-30 | `parse` succeeds exactly when tokenizing does, wraps exactly those elements, and otherwise reports the same error |
| MarkdownParser.StripMarkup | app/src/main/java/ru/skillbranch/skillarticles/data/repositories/MarkdownParser.kt:33 | removing `_`, `~` and `*` leaves no such char and keeps every other char, each as often as before; `StripMarkupAppend` states that their order is kept |
| MarkdownParser.StripMarkupAppend | app/src/main/java/ru/skillbranch/skillarticles/data/repositories/MarkdownParser.kt:33 | removing the markup from a concatenation removes it from each part, so the other chars stay in their order |
| MarkdownParser.PlainText | app/src/main/java/ru/skillbranch/skillarticles/data/repositories/MarkdownParser.kt:32-33 | a `Text` element contributes its text unchanged; any other contributes its text without `_`, `~` and `*`, keeping every other char as often as before, in its order (`StripMarkupAppend`) |
| MarkdownParser.Clear | app/src/main/java/ru/skillbranch/skillarticles/data/repositories/MarkdownParser.kt:32-34 | `clear` succeeds exactly when parsing does, and otherwise reports the same error |
| MarkdownProperties.CoversCons | app/src/main/java/ru/skillbranch/skillarticles/data/repositories/MarkdownParser.kt:40-45 | prefixing a piece that starts where the cover starts extends the tiling |
| MarkdownProperties.CoversTail | app/src/main/java/ru/skillbranch/skillarticles/data/repositories/MarkdownParser.kt:154-157 | a match-free tail is tiled by one trailing text |
| MarkdownProperties.GapFoundCover | app/src/main/java/ru/skillbranch/skillarticles/data/repositories/MarkdownParser.kt:40-45 | the gap before the first match, the match and the rest tile the text from `lastStartIndex` |
| MarkdownProperties.SegmentsCover | app/src/main/java/ru/skillbranch/skillarticles/data/repositories/MarkdownParser.kt:36-159 | the gaps and matches `findElements` visits tile the input end to end; a gap is always followed by a match or ends the text, and no match starts inside a gap |
| MarkdownProperties.BuildAllShape | app/src/main/java/ru/skillbranch/skillarticles/data/repositories/MarkdownParser.kt:36-159 | the element list succeeds exactly when every piece builds, and then has one element per piece, in order; a failure carries the error of the first piece that fails |
| MarkdownProperties.TokenizeEmpty | app/src/main/java/ru/skillbranch/skillarticles/data/repositories/MarkdownParser.kt:154-158 | the empty text parses to no elements |
| MarkdownProperties.TokenizeNoMatch | app/src/main/java/ru/skillbranch/skillarticles/data/repositories/MarkdownParser.kt:154-157 | a non-empty text without markup parses to a single `Text` of the whole text |
| MarkdownProperties.RecursingElement | app/src/main/java/ru/skillbranch/skillarticles/data/repositories/MarkdownParser.kt:60-138 | a container element succeeds exactly when its inner text parses, has the group's kind, the inner text and those children, and otherwise fails with the inner error |
| MarkdownProperties.OrderedItemOrder | app/src/main/java/ru/skillbranch/skillarticles/data/repositories/MarkdownParser.kt:122-131 | an ordered item's `order` is the match up to its last non-letter, which is its digit and dot when the rest is letters |
| MarkdownProperties.LastNonLetterIsMarker | app/src/main/java/ru/skillbranch/skillarticles/data/repositories/MarkdownParser.kt:126 | when everything after the `"N. "` marker is a letter, the last non-letter is the space of the marker |
| MarkdownProperties.LeafElement | app/src/main/java/ru/skillbranch/skillarticles/data/repositories/MarkdownParser.kt:67-151 | headers carry their level and the text after it, a rule is a `Rule`, and links and images carry their destructured parts or fail |
| MarkdownProperties.LinkPartsGreedy | app/src/main/java/ru/skillbranch/skillarticles/data/repositories/MarkdownParser.kt:117 | the greedy title runs to the last `](`: `[a](x](y)` yields the title `a](x` and the link `y` |
| MarkdownProperties.TokenizeWellFormed | app/src/main/java/ru/skillbranch/skillarticles/data/repositories/MarkdownParser.kt:36-159 | every element of a successful parse is well formed: leaves have no children and containers hold well-formed children |
| MarkdownProperties.SegmentWellFormed | app/src/main/java/ru/skillbranch/skillarticles/data/repositories/MarkdownParser.kt:40-151 | the element built for each gap or match is well formed, at every depth |
| MarkdownProperties.JoinPlainAppend | app/src/main/java/ru/skillbranch/skillarticles/data/repositories/MarkdownParser.kt:32 | `joinToString("")` of two lists is the join of each, appended |
| MarkdownProperties.ElementWithin | app/src/main/java/ru/skillbranch/skillarticles/data/repositories/MarkdownParser.kt:32-34 | the plain text of one element is no longer than its match |
| MarkdownProperties.GapPlain | app/src/main/java/ru/skillbranch/skillarticles/data/repositories/MarkdownParser.kt:43-45 | the text between matches keeps its full length in the plain text |
| MarkdownProperties.PlainOfPieces | app/src/main/java/ru/skillbranch/skillarticles/data/repositories/MarkdownParser.kt:32 | the plain-text length of a gap, an element and a tail is the sum of their lengths |
| MarkdownProperties.PlainWithin | app/src/main/java/ru/skillbranch/skillarticles/data/repositories/MarkdownParser.kt:32-34 | the plain text of the pieces from an index is no longer than the text from that index |
| MarkdownProperties.ClearWithin | app/src/main/java/ru/skillbranch/skillarticles/data/repositories/MarkdownParser.kt:32-34 | `clear` never makes the text longer |
| MarkdownProperties.ClearNoMatch | app/src/main/java/ru/skillbranch/skillarticles/data/repositories/MarkdownParser.kt:32-34 | `clear` returns a text with no markup unchanged |
| MarkdownProperties.RuleRangeAdmitsLetters | app/src/main/java/ru/skillbranch/skillarticles/data/repositories/MarkdownParser.kt:14 | the rule class as written matches the line `ABC`, and so does group 7 of the composite pattern, while the intended class rejects it |
| MarkdownProperties.LetterLineIsRule | app/src/main/java/ru/skillbranch/skillarticles/data/repositories/MarkdownParser.kt:14 | so the text `ABC` parses to a single `Rule`, and `clear` turns it into one space |
| MarkdownProperties.LineStartLinkFails | app/src/main/java/ru/skillbranch/skillarticles/data/repositories/MarkdownParser.kt:115-117 | the line-start alternative of the link group needs no `[`, so the text `](x)` is a link match that the inner regex cannot decompose: the parse and `clear` fail on that span |
| MarkdownProperties.LineStartLinkElement | app/src/main/java/ru/skillbranch/skillarticles/data/repositories/MarkdownParser.kt:115-117 | the element for that match is the failure carrying the span |
| MarkdownProperties.LineStartLinkSegments | app/src/main/java/ru/skillbranch/skillarticles/data/repositories/MarkdownParser.kt:16 | `](x)` is one link match and nothing else matches |
| MarkdownProperties.RuleLineNarrowsAsWritten | app/src/main/java/ru/skillbranch/skillarticles/data/repositories/MarkdownParser.kt:14 | every intended rule is also a rule as written, and the lines the written class adds are exactly those holding a char of the range that is not a marker |
| ArticleStates.InitialState | app/src/main/java/ru/skillbranch/skillarticles/viewmodels/ArticleViewModel.kt:165-186 | a fresh state is loading, shows no menu, is not searching and has no query, results or content, at position 0 |
| ArticleStates.ToggledMenu | app/src/main/java/ru/skillbranch/skillarticles/viewmodels/ArticleViewModel.kt:122 | the toggle flips the menu flag and leaves every other field as it was |
| ArticleStates.HiddenMenu | app/src/main/java/ru/skillbranch/skillarticles/viewmodels/ArticleViewModel.kt:129 | `hideMenu` clears the menu flag and leaves every other field as it was |
| ArticleStates.ShownMenu | app/src/main/java/ru/skillbranch/skillarticles/viewmodels/ArticleViewModel.kt:133 | `showMenu` sets the menu flag to the remembered value and leaves every other field as it was |
| ArticleStates.WithQuery | app/src/main/java/ru/skillbranch/skillarticles/viewmodels/ArticleViewModel.kt:137 | only the query changes, to the one given |
| ArticleStates.WithIsSearch | app/src/main/java/ru/skillbranch/skillarticles/viewmodels/ArticleViewModel.kt:141 | only the search flag changes, to the one given |
| ArticleStates.InSearchMode | app/src/main/java/ru/skillbranch/skillarticles/viewmodels/ArticleViewModel.kt:145 | the search flag takes the value given, the menu is closed and the position is 0; nothing else changes |
| ArticleStates.UpResult | app/src/main/java/ru/skillbranch/skillarticles/viewmodels/ArticleViewModel.kt:157 | the position goes down by one and nothing else changes |
| ArticleStates.DownResult | app/src/main/java/ru/skillbranch/skillarticles/viewmodels/ArticleViewModel.kt:161 | the position goes up by one and nothing else changes |
| ArticleStates.FirstOrNull | app/src/main/java/ru/skillbranch/skillarticles/viewmodels/ArticleViewModel.kt:150 | there is a first content string exactly when the content is not empty, and it is the one at index 0 |
| ArticleStates.Ranges | app/src/main/java/ru/skillbranch/skillarticles/viewmodels/ArticleViewModel.kt:150-152 | one range per start index, in the same order, each running from its start for the query's length |
| ArticleStates.SearchResults | app/src/main/java/ru/skillbranch/skillarticles/viewmodels/ArticleViewModel.kt:150-152 | no content gives no results; otherwise there is one range per occurrence in the first content string |
| ArticleStates.Searched | app/src/main/java/ru/skillbranch/skillarticles/viewmodels/ArticleViewModel.kt:148-153 | a search stores the query and the ranges of its occurrences in the content, and nothing else changes |
| ArticleStates.SearchResultsSpec | app/src/main/java/ru/skillbranch/skillarticles/viewmodels/ArticleViewModel.kt:148-154 | every stored range spans a case-insensitive occurrence of the query, the ranges increase, and every occurrence has its range |
| ArticleStates.SearchedCount | app/src/main/java/ru/skillbranch/skillarticles/viewmodels/ArticleViewModel.kt:239-246 | after a search the bottom bar counts exactly the occurrences and keeps the position |
| ArticleStates.SearchedNoContent | app/src/main/java/ru/skillbranch/skillarticles/viewmodels/ArticleViewModel.kt:148-153 | searching an article without content stores no results and shows a count of zero |
| ArticleStates.UpDownInverse | app/src/main/java/ru/skillbranch/skillarticles/viewmodels/ArticleViewModel.kt:156-162 | up and down move the position by one each way and undo each other |
| ArticleStates.ToggleTwice | app/src/main/java/ru/skillbranch/skillarticles/viewmodels/ArticleViewModel.kt:120-126 | toggling the menu twice restores the state |
| ArticleStates.ShowAfterToggle | app/src/main/java/ru/skillbranch/skillarticles/viewmodels/ArticleViewModel.kt:120-134 | `showMenu` after a toggle restores the state from before the toggle |
| ArticleStates.SearchModeClosesMenu | app/src/main/java/ru/skillbranch/skillarticles/viewmodels/ArticleViewModel.kt:144-146 | entering or leaving search mode hides the menu in both projections, resets the position to 0, sets the search flag, and is idempotent |
| ArticleStates.ToBottombarData | app/src/main/java/ru/skillbranch/skillarticles/viewmodels/ArticleViewModel.kt:239-246 | the bottom bar shows the like, bookmark, menu and search flags of the state, the number of results and the position |
| ArticleStates.ToSubmenuData | app/src/main/java/ru/skillbranch/skillarticles/viewmodels/ArticleViewModel.kt:248 | the submenu shows the menu, big-text and dark-mode flags of the state |
| ArticleViewModels.ArticleViewModel.constructor | app/src/main/java/ru/skillbranch/skillarticles/viewmodels/ArticleViewModel.kt:16-21 | the view model starts from the default state with `menuIsShown` false |
| ArticleViewModels.ArticleViewModel.HandleToggleMenu | app/src/main/java/ru/skillbranch/skillarticles/viewmodels/ArticleViewModel.kt:120-126 | the menu flag flips, and `menuIsShown` records the flag as it was before the flip |
| ArticleViewModels.ArticleViewModel.HideMenu | app/src/main/java/ru/skillbranch/skillarticles/viewmodels/ArticleViewModel.kt:128-130 | the menu is hidden and nothing else changes |
| ArticleViewModels.ArticleViewModel.ShowMenu | app/src/main/java/ru/skillbranch/skillarticles/viewmodels/ArticleViewModel.kt:132-134 | the menu flag takes the remembered `menuIsShown` and nothing else changes |
| ArticleViewModels.ArticleViewModel.HandleSearchQuery | app/src/main/java/ru/skillbranch/skillarticles/viewmodels/ArticleViewModel.kt:136-138 | only the query changes |
| ArticleViewModels.ArticleViewModel.HandleIsSearch | app/src/main/java/ru/skillbranch/skillarticles/viewmodels/ArticleViewModel.kt:140-142 | only the search flag changes |
| ArticleViewModels.ArticleViewModel.HandleSearchMode | app/src/main/java/ru/skillbranch/skillarticles/viewmodels/ArticleViewModel.kt:144-146 | the search flag is set, the menu is closed and the position is rewound |
| ArticleViewModels.ArticleViewModel.HandleSearch | app/src/main/java/ru/skillbranch/skillarticles/viewmodels/ArticleViewModel.kt:148-154 | a null query changes nothing; otherwise the query and the ranges of all its occurrences are stored |
| ArticleViewModels.ArticleViewModel.HandleUpResult | app/src/main/java/ru/skillbranch/skillarticles/viewmodels/ArticleViewModel.kt:156-158 | the position moves back by one and nothing else changes |
| ArticleViewModels.ArticleViewModel.HandleDownResult | app/src/main/java/ru/skillbranch/skillarticles/viewmodels/ArticleViewModel.kt:160-162 | the position moves forward by one and nothing else changes |
| Users.Run | app/src/main/java/ru/skillbranch/kotlinexample/User.kt:125-126 | `POSSIBLE_CHARS` is built from consecutive char runs, each char one past the previous |
| Users.NormalizePhone | app/src/main/java/ru/skillbranch/kotlinexample/User.kt:44-47 | the phone setter keeps only `+` and digits and never lengthens the number; `NormalizePhoneAppend` and `NormalizePhoneCounts` state that it keeps them all, in their order |
| Users.NormalizePhoneCounts | app/src/main/java/ru/skillbranch/kotlinexample/User.kt:46 | every `+` and digit of the raw phone survives, each as often as before, and nothing else does |
| Users.NormalizePhoneAppend | app/src/main/java/ru/skillbranch/kotlinexample/User.kt:44-47 | normalising a concatenation normalises each part, so the `+` and digits stay in their order |
| Users.NormalizePhoneExample | app/src/main/java/ru/skillbranch/kotlinexample/User.kt:44-47 | the number `+7 (917)` is stored as `+7917` |
| Users.NormalizePhoneIdempotent | app/src/main/java/ru/skillbranch/kotlinexample/User.kt:46 | normalising a normalised phone changes nothing |
| Users.PhoneLowerCase | app/src/main/java/ru/skillbranch/kotlinexample/User.kt:52 | a phone is already in lower case |
| Users.PhoneLoginLowerCase | app/src/main/java/ru/skillbranch/kotlinexample/User.kt:75-76 | the login setter leaves a normalised phone as it is |
| Users.LoginOf | app/src/main/java/ru/skillbranch/kotlinexample/User.kt:75-76 | the login is already lower case; it is the lower-cased e-mail when there is one, and otherwise the normalised phone, unchanged |
| Users.Initials | app/src/main/java/ru/skillbranch/kotlinexample/User.kt:36-39 | the initials are the upper-cased first letters of the names, separated by a space, and hold no lower-case letter |
| Users.Capitalize | app/src/main/java/ru/skillbranch/kotlinexample/User.kt:42 | `capitalize` upper-cases a lower-case first char and keeps every other char; the result never starts with a lower-case letter, and an already capitalised name is left alone |
| Users.FullNameParts | app/src/main/java/ru/skillbranch/kotlinexample/User.kt:41-42 | the full name is the first name with its first char capitalised, then, when there is a last name, a space and the last name unchanged |
| Users.UserInfoTemplate | app/src/main/java/ru/skillbranch/kotlinexample/User.kt:78-87 | `userInfo` is the eight `name: value` lines of the template (first and last name, login, full name, initials, e-mail, phone, meta) separated by `\n` |
| Users.JoinEightLines | app/src/main/java/ru/skillbranch/kotlinexample/User.kt:78-87 | joining eight lines puts exactly one `\n` between consecutive lines |
| Users.InitError | app/src/main/java/ru/skillbranch/kotlinexample/User.kt:70-73 | construction proceeds exactly when the first name is not blank, an e-mail or a phone is not blank, and the last name, when present, is not empty |
| Users.AccessCode | app/src/main/java/ru/skillbranch/kotlinexample/User.kt:94-96 | an access code is six letters or digits |
| Users.CodeChar | app/src/main/java/ru/skillbranch/kotlinexample/User.kt:95 | each drawn char is a letter or a digit |
| Users.CodeCharIsPossibleChar | app/src/main/java/ru/skillbranch/kotlinexample/User.kt:125-126 | `POSSIBLE_CHARS` has 62 chars, and drawing index k yields its k-th char |
| Users.AccessCodeFromPossibleChars | app/src/main/java/ru/skillbranch/kotlinexample/User.kt:94-96 | every char of an access code is one of `POSSIBLE_CHARS` |
| Users.SplitSpaces | app/src/main/java/ru/skillbranch/kotlinexample/User.kt:145 | `split(" ")` gives at least one part, no part holds a space, and joining with spaces restores the text |
| Users.SplitJoin | app/src/main/java/ru/skillbranch/kotlinexample/User.kt:145 | splitting space-free parts joined by spaces gives back those parts |
| Users.SplitSpaceFree | app/src/main/java/ru/skillbranch/kotlinexample/User.kt:145 | a word without spaces splits into itself |
| Users.SplitPrefix | app/src/main/java/ru/skillbranch/kotlinexample/User.kt:145 | a leading word before a space splits off as the first part |
| Users.NonBlank | app/src/main/java/ru/skillbranch/kotlinexample/User.kt:145-147 | the filter keeps only non-blank parts, and a single part is kept exactly when it is not blank; `NonBlankMembers` states that the kept parts are exactly the non-blank parts and `NonBlankAppend` that their order is kept |
| Users.NonBlankAppend | app/src/main/java/ru/skillbranch/kotlinexample/User.kt:145-147 | the filter keeps the order: filtering two runs of parts appended is filtering each and appending |
| Users.NonBlankMembers | app/src/main/java/ru/skillbranch/kotlinexample/User.kt:145-147 | each kept part is one of the parts, and each non-blank part is kept |
| Users.FullNameToPair | app/src/main/java/ru/skillbranch/kotlinexample/User.kt:145-153 | one word gives (word, null), two words give both, and any other count fails with `BadArguments`; the words have no spaces and are not blank |
| Users.TwoWordName | app/src/main/java/ru/skillbranch/kotlinexample/User.kt:145-153 | "first last" splits into exactly those two names |
| Users.PairPassesInit | app/src/main/java/ru/skillbranch/kotlinexample/User.kt:134-139 | a parsed full name always passes the constructor checks once an e-mail or a phone is given |
| Users.User.WithPassword | app/src/main/java/ru/skillbranch/kotlinexample/User.kt:17-24 | the e-mail user has the lower-cased e-mail as login, no phone, no access code, a salted hash of its password and `auth=password` |
| Users.User.WithPhone | app/src/main/java/ru/skillbranch/kotlinexample/User.kt:26-34 | the phone user has the normalised phone as login and phone, the drawn access code as its secret, and `auth=sms` |
| Users.User.SetLogin | app/src/main/java/ru/skillbranch/kotlinexample/User.kt:50-53 | the stored login is the lower-cased value |
| Users.User.Encrypt | app/src/main/java/ru/skillbranch/kotlinexample/User.kt:98-103 | the salt is drawn once, only when missing or empty, and the result hashes salt plus password |
| Users.User.CheckPassword | app/src/main/java/ru/skillbranch/kotlinexample/User.kt:105-108 | the check holds exactly when the salted hash matches, it keeps the salt, and the current secret always checks |
| Users.User.SetAccessCode | app/src/main/java/ru/skillbranch/kotlinexample/User.kt:59-66 | setting a code makes it the secret the hash is made from; null changes only the code |
| Users.User.ChangePassword | app/src/main/java/ru/skillbranch/kotlinexample/User.kt:110-122 | a wrong old password fails and changes nothing; otherwise the new password becomes the secret, and an existing access code is replaced by it |
| Users.User.NewWithPassword | app/src/main/java/ru/skillbranch/kotlinexample/User.kt:17-24 | the e-mail constructor fails exactly when the init checks fail, with their error; otherwise it yields a consistent user with the given names and e-mail, no phone, auth `password`, the lower-cased e-mail as login, no access code, the given hash, the `userInfo` of exactly those fields, and the given password as its secret |
| Users.User.NewWithPhone | app/src/main/java/ru/skillbranch/kotlinexample/User.kt:26-34 | the phone constructor fails exactly when the init checks fail, with their error; otherwise it yields a consistent user with the given names, no e-mail, the normalised phone as phone and login, auth `sms`, the given hash, the `userInfo` of exactly those fields, and the access code as both its stored code and its secret |
| Users.User.MakeUser | app/src/main/java/ru/skillbranch/kotlinexample/User.kt:128-143 | a user is made exactly when the full name has one or two words and there is a non-blank phone, or else a non-blank e-mail and password; the phone takes precedence; everything else fails with `BadArguments`. The user carries the two words of the name, and either the normalised phone (no e-mail, auth `sms`, the access code as secret) or the e-mail (no phone, auth `password`, the given password as secret), with the `userInfo` of those fields |
| UserHolders.FormatLogin | app/src/main/java/ru/skillbranch/kotlinexample/UserHolder.kt:41-45 | an empty login fails; a login starting with `+` is reduced to `+` and digits; any other is kept as typed |
| UserHolders.PhoneLoginFound | app/src/main/java/ru/skillbranch/kotlinexample/UserHolder.kt:41-45 | a phone typed with its leading `+` formats to the key it was registered under |
| UserHolders.UserHolder.constructor | app/src/main/java/ru/skillbranch/kotlinexample/UserHolder.kt:5-6 | the registry starts empty |
| UserHolders.UserHolder.RegisterUser | app/src/main/java/ru/skillbranch/kotlinexample/UserHolder.kt:8-12 | registration succeeds exactly when the name and both e-mail and password are valid, and stores the new user, with the two words of the name, the e-mail and no phone, under its lower-cased e-mail; failure leaves the map as it was |
| UserHolders.UserHolder.RegisterUserByPhone | app/src/main/java/ru/skillbranch/kotlinexample/UserHolder.kt:27-30 | registration succeeds exactly when the name and the phone are valid, and stores the new user, with the two words of the name, the normalised phone and no e-mail, under its normalised phone |
| UserHolders.UserHolder.LoginUser | app/src/main/java/ru/skillbranch/kotlinexample/UserHolder.kt:14-25 | login gives the user's info exactly when the formatted login is a key and the password's salted hash matches; a user's current secret always logs in |
| UserHolders.UserHolder.ClearHolder | app/src/main/java/ru/skillbranch/kotlinexample/UserHolder.kt:32-35 | the registry is emptied |
| UserHolders.UserHolder.RequestAccessCode | app/src/main/java/ru/skillbranch/kotlinexample/UserHolder.kt:37-39 | the user under the formatted login gets a fresh access code as its new secret; every other user is untouched |
| UserHolders.MixedCaseLoginNotFound | app/src/main/java/ru/skillbranch/kotlinexample/UserHolder.kt:18 | an e-mail login that is not in lower case never finds a user, because keys are lower-cased logins |

## Left out

- Text is a sequence of Dafny chars, which are Unicode scalar values, while Kotlin indexes a `String` by UTF-16 code units. A char outside the Basic Multilingual Plane is two code units (a surrogate pair) in Kotlin and one char here. So after such a char, the offsets that `indexesOf` returns, the search ranges, the parser's match offsets and the index from `indexOfLast` are smaller here than in Kotlin, by one per such char. Text inside the Basic Multilingual Plane is unaffected.
- `toLowerCase(Locale.getDefault())` (User.kt:52) and `capitalize(Locale.getDefault())` (User.kt:42) depend on the device locale. The model uses the locale-independent mapping described in the next line. For example, a Turkish locale maps `I` to the dotless `ı`, which the model does not.
- Unicode: `isLetter`, `toLowerCase` and `toUpperCase` are modelled only for ASCII and the basic Cyrillic block. Every other char counts as no letter and is its own upper and lower case. `isWhitespace` is modelled for the whole of Unicode.
- `LINE_SEPARATOR` (MarkdownParser.kt:6) is unused by the parser and is not modelled. Line ends are `\n`, `\r` and the other terminators java.util.regex recognises.
- The `-1` branch of the group selection (MarkdownParser.kt:57-58) cannot be reached, because every match of the composite pattern captures one of its twelve groups. The model proves that every reported match has a group.
- The `!!` on a failed link or image destructuring (MarkdownParser.kt:117, 141-143) throws a `NullPointerException` in Kotlin. Here it is a `Failure` carrying the span. `LineStartLinkFails` shows an input that reaches it.
- MarkdownRules.ItalicAt, MarkdownRules.BoldAt, MarkdownRules.StrikeAt, MarkdownRules.InlineCodeAt, MarkdownRules.LinkAt, MarkdownRules.BlockCodeAt and MarkdownRules.ImageAt: their own contracts state only where a match lies and its least length. Their bodies follow the regex operator by operator, and the backtracking order inside them is stated by `DelimitedAtFirst`, `LazyCloseFirst`, `LinkTailAtBracket`, `FenceClose`, `ImageTailAtBracket` and `TitledToParenFirst`.
- MarkdownRules.LinkTail, MarkdownRules.ImageTail, MarkdownRules.LazyPlusToParen, MarkdownRules.BracketsToParen, MarkdownRules.TitledToParen and MarkdownRules.BracketsToTitledParen: their own contracts state only bounds. They are the steps of the link and image alternatives above; `LinkTailAtBracket` and `ImageTailAtBracket` characterise the first two and `TitledToParenFirst` the fifth.
- MarkdownParser.Segments: its contract states only that each piece is well formed; the tiling is proved separately in `MarkdownProperties.SegmentsCover`.
- Element classes and `MarkdownText` are plain values. Kotlin's `CharSequence` text is a string.
- The LiveData machinery, `updateState`, `notify`, `BaseViewModel` and the `init` subscriptions to the repository are left out. The held state is a field. `BaseViewModel` is not part of this model.
- The repository-backed handlers of `ArticleViewModel` (like, bookmark, text size, night mode, share, the data getters) are not part of the core modelled here.
- `toBundle` and `fromBundle` (ArticleViewModel.kt:188-221) are left out, because Android's `Bundle` is outside the model.
- `categoryIcon`, `author` and `reviews` are typed `Any` in Kotlin and are held as strings. Nothing modelled reads them.
- ArticleStates.UpDownInverse: `searchPosition` is an unbounded integer, so the 32-bit wrap-around of `Int.dec()` and `Int.inc()` at the extremes is not modelled.
- MD5 (User.kt:156-161) is an arbitrary function `hash`. No property of the digest is assumed beyond it being a function.
- `SecureRandom` salt generation and `POSSIBLE_CHARS.random()` are parameters: a non-empty `randomSalt` and six indices `picks`. The salt's textual form (`ByteArray.toString()`) is not modelled.
- The `println` calls (User.kt:90-92, 106, 116) produce output only and are left out.
- The primary `User` constructor (User.kt:9-15) is reached only through the two secondary constructors, which the model covers. The `meta` map is reduced to the `auth` value it carries.
- `userInfo`'s `trimIndent()` is modelled as joining the eight lines with `\n`. That differs from Kotlin only when a field itself spans lines.
- Users.User.WithPhone: `sendAccessCodeToUser` (User.kt:33) only prints, and is left out.
- `@VisibleForTesting` only restricts visibility and has no behaviour to model.
- The exceptions that `check` and `IllegalArgumentException` raise are `Failure` results carrying a `UserError`.

## Findings

| source | as written | input that shows it | evidently intended | confidence | as-written member | corrected member |
|---|---|---|---|---|---|---|
| app/src/main/java/ru/skillbranch/skillarticles/data/repositories/MarkdownParser.kt:14 | `[*-_]` is a character range from `*` (0x2A) to `_` (0x5F). So any line of exactly three capital letters, digits or punctuation in that range matches the rule group and becomes a `Rule`. The parser here keeps the class as written | a line `ABC` (also `123`) | a class of the three markers `*`, `-` and `_`, as in `[*\-_]` | not executed | MarkdownProperties.LetterLineIsRule | MarkdownRules.RuleLineAt |
