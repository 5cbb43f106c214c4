# blictionary-cli corpus browser, modelled in Dafny

This project models the state logic of blictionary-cli's terminal corpus
browser and of the small helpers around it. It proves what each piece
promises.

- **The list controller every page is built on** (`TerminalLines`, module
  `Viewport`). It holds a cursor over the page's items. It also has a numeric
  quick-jump mode: typed digits collect in a buffer until ENTER, UP or DOWN
  commits them, clamped to the list.
- **The four pages and the key dispatch** (module `Corpus`). The pages are
  WORDRANK, CONCORDANCER, WORDFILTER and WORDPAIRS. Each page is a class
  with a `Viewport` and the data its `init` derives. `Session` is
  `initStuff`: the current mode, the program status and the routing of
  every key.
- **The page data:**
  - The rank file parser (`RankFile`).
  - The concordance filter (`Concordance`).
  - The two-word co-occurrence windows and their counts (`Pairs`).
  - The fuzzy filter's fallback (`Corpus.Fuzzy`).
- **`rankWords`** (`RankWords`, with the counting map and the stable
  descending sort in `Ranking`). It tokenises, counts, sorts and prints
  zero-padded `NNN "word"` lines. It is proved to round-trip through
  `splitWordRank`.
- **`capital`** (`Stats`). It counts the lines that start with an
  upper-case word or with a lower-case word.
- **`wordClassToString` and `searchWord`** (`Utils`).
- **The `init` argument checks** (`Validate`).
- **The search prompt's line editor** (`Entry`). It handles backspace,
  ctrl-W word deletion, return, filtered append, and the interrupt check.

Code that mutates fields is modelled as classes, and loops as methods with
invariants. Each method is proved equal to a specification function, and
lemmas prove the source's promises about those functions.

Some behaviours of the code are easy to miss, and the model follows the code
in each:

- In number mode, UP and DOWN with an empty buffer still step the cursor.
  ENTER does nothing then, and number mode goes on.
- A committed jump on an empty list puts the cursor at -1.
- `WordRank.init` keeps its cursor, so RIGHT and then ESCAPE return to the
  same ranking entry.
- A fuzzy matcher answer of `[]` is truthy, so the filter page is then empty.
- An empty first path argument masks the second one.
- `Concordancer.filter` shares one global regular expression across lines,
  so each line is searched from where the previous match ended. This drops
  lines (see "## Findings"). The concordance page is modelled as the code
  computes it, and the intended filter is modelled beside it.

## Model

| member | source | states |
|---|---|---|
| Viewport.Forward | src/corpus.ts:94-103 | a valid index stays valid; inside the list it moves by `step` and stops at `len - 1` instead of wrapping; on an empty list 0 and -1 stay where they are |
| Viewport.Backward | src/corpus.ts:105-114 | a valid index stays valid for every length; it moves back by `step` and stops at 0; a non-positive index is left alone |
| Viewport.ParseInt | src/corpus.ts:240-243 | on a digit buffer, `parseInt` is NaN exactly when the buffer is empty, and otherwise its decimal value |
| Viewport.JumpTarget | src/corpus.ts:239-247 | a non-empty digit buffer gives `min(max(0, n), len - 1)`; every target is a valid index, -1 on an empty list |
| Viewport.Commit | src/corpus.ts:229-247 | committing an empty buffer changes nothing; a non-empty one ends number mode and empties the buffer; a digit buffer moves the index to `min(max(0, n), len - 1)` |
| Viewport.NumPress | src/corpus.ts:165-218 | in number mode only UP, DOWN and ENTER move the index; no key turns number mode on; leaving it empties the buffer; a digit is appended to the buffer |
| Viewport.Press | src/corpus.ts:116-154 | `data`: in number mode every key is consumed; `q` asks to exit exactly outside number mode; a key reaches `stringData` exactly when it is outside number mode and is not UP, DOWN, `q` or a digit; a key that is not consumed leaves the cursor alone; only a digit turns number mode on |
| Viewport.PressKeepsWellFormed | src/corpus.ts:116-154 | every key keeps the index in range, the buffer made of digits, and the buffer empty outside number mode |
| Viewport.NumPressKeepsWellFormed | src/corpus.ts:165-218 | the same for every key in number mode |
| Viewport.Run | src/corpus.ts:116-218 | after any sequence of keys the state is still well formed, so on a non-empty list `0 <= index < len` |
| Viewport.RunAppend | src/corpus.ts:116-218 | pressing `a` then `b` is pressing `a + b`: each key acts on the state the earlier keys left |
| Viewport.ArrowsClamp | src/corpus.ts:122-132 | outside number mode, DOWN on the last item and UP on the first leave the index there; otherwise they move it by one; the key is consumed |
| Viewport.ArrowsOnEmptyList | src/corpus.ts:94-114 | on an empty list UP and DOWN leave the index unchanged |
| Viewport.DigitStartsNumberMode | src/corpus.ts:137-163 | a digit in navigation mode starts number mode with that digit as the buffer, leaves the index alone, and asks for no page change |
| Viewport.NumberModeEditing | src/corpus.ts:116-193 | in number mode every key is consumed; a digit is appended; BACKSPACE drops exactly the last character of a non-empty buffer and nothing from an empty one; ESCAPE clears the buffer and leaves number mode with the index unchanged; LEFT, RIGHT, `q` and other keys change nothing |
| Viewport.CommitJumps | src/corpus.ts:194-247 | with a non-empty buffer, ENTER sets the index to the clamped number, and UP or DOWN then step from there; number mode ends and the buffer is emptied |
| Viewport.CommitEmptyBuffer | src/corpus.ts:194-230 | with an empty buffer, ENTER changes nothing and number mode goes on, while UP and DOWN still step the index |
| Viewport.JumpExamples | src/corpus.ts:210-247 | on 20 items, "7" jumps to 7 and "999" to the last item, 19 |
| Viewport.JumpOnEmptyList | src/corpus.ts:239-247 | on an empty list a committed jump yields -1, and the arrows keep it there |
| Viewport.Viewport.constructor | src/corpus.ts:79-85 | a page starts with its items, `len` equal to their number, the cursor at 0 and number mode off |
| Viewport.Viewport.Add | src/corpus.ts:94-103 | the index becomes `Forward(old index, len, toAdd)`; nothing else changes |
| Viewport.Viewport.Sub | src/corpus.ts:105-114 | the index becomes `Backward(old index, toSub)`; nothing else changes |
| Viewport.Viewport.Num | src/corpus.ts:159-163 | the buffer becomes the digit and number mode is on |
| Viewport.Viewport.MakeIndex | src/corpus.ts:229-237 | an empty buffer gives `null` and leaves buffer and mode alone; otherwise it returns the clamped target, empties the buffer and leaves number mode |
| Viewport.Viewport.NumData | src/corpus.ts:165-218 | the cursor fields become `NumPress` of the old cursor; the page stays valid |
| Viewport.Viewport.Data | src/corpus.ts:116-154 | the cursor fields, and what is handed to `stringData`, are `Press` of the old cursor; the page stays valid |
| Viewport.Viewport.Reset | src/corpus.ts:353-359 | the shared part of the pages' `init`: new items, `len` is their number, the index is 0 |
| Corpus.Edge | src/corpus.ts:314-489 | the page graph: only LEFT, RIGHT and ESCAPE change pages, never to the same page; ESCAPE leads to the ranking from every other page and does nothing on the ranking |
| Corpus.ArrowsAreReversible | src/corpus.ts:314-489 | every arrow step between pages is undone by the opposite arrow |
| Corpus.RankingReachable | src/corpus.ts:314-489 | the ranking is one ESCAPE and at most two arrow steps away from every page |
| Corpus.Transition | src/corpus.ts:33-76 | one key in `initStuff`: nothing changes once the program has stopped; the mode changes only while running, outside number mode, for a key other than the interrupt, along an edge of the graph, and the program keeps running; it crashes exactly when RIGHT or LEFT is pressed on the ranking with the cursor on no entry |
| Corpus.NumberModeKeepsPage | src/corpus.ts:116-120 | in number mode no key but the interrupt changes the page or the status |
| Corpus.InterruptAlwaysExits | src/corpus.ts:34-38 | ctrl-C ends the program on every page and in every mode |
| Corpus.WordRank.constructor | src/corpus.ts:300-307 | the items are `splitWordRank` of the rank file lines, and the cursor is at 0 |
| Corpus.WordRank.Init | src/corpus.ts:309-312 | it reports WORDRANK and changes no state |
| Corpus.WordRank.StringData | src/corpus.ts:314-325 | RIGHT opens the concordances and LEFT the filter of the word under the cursor, at its position; the concordances are the lines `filter` keeps, with its `lastIndex` carried over; on an empty list either key fails; the page that is not opened is unchanged |
| Corpus.Concordancer.constructor | src/corpus.ts:345-350 | all corpus lines are the items, and the cursor is at 0 |
| Corpus.Concordancer.Init | src/corpus.ts:352-362 | the items become the lines `filter` keeps for the word, the global search resuming at the previous match's end (`Survivors` from 0), which is a subsequence of the lines holding the word; the index is 0; the rank position is kept |
| Corpus.Concordancer.StringData | src/corpus.ts:364-371 | LEFT and ESCAPE go back to the ranking; other keys stay |
| Corpus.WordFilter.constructor | src/corpus.ts:398-404 | the items are `splitWordRank` of the rank lines, the matcher is the one given, and the cursor is at 0 |
| Corpus.WordFilter.Init | src/corpus.ts:406-417 | the items become the fuzzy items of the word; the index is 0; word and rank position are stored |
| Corpus.WordFilter.StringData | src/corpus.ts:419-429 | RIGHT and ESCAPE go back to the ranking; LEFT opens the pairs of the stored word and position; the pairs page is otherwise unchanged |
| Corpus.Fuzzy | src/corpus.ts:431-437 | every item is a rank entry; `null` gives exactly the entry the page was opened on; `[]` gives no items; otherwise the entries at the matcher's positions, in its order |
| Corpus.WordPairs.constructor | src/corpus.ts:458-465 | every corpus line becomes its token list; there are no items yet |
| Corpus.WordPairs.Init | src/corpus.ts:467-478 | the items become the sorted pairs of the word; the index is 0; word and rank position are stored |
| Corpus.WordPairs.StringData | src/corpus.ts:480-489 | ESCAPE goes back to the ranking; RIGHT reopens the filter of the stored word; the filter page is otherwise unchanged |
| Corpus.Session.constructor | src/corpus.ts:40-48 | the four pages are built from the rank lines and the corpus lines; the ranking is shown with its cursor at 0; the session is running |
| Corpus.Session.Step | src/corpus.ts:49-74 | status and mode move as `Transition` says; the shown page's cursor moves as `Press` says; a page opened by the key shows what its `init` computes for the ranking entry under the cursor, or for the word and position stored on the filter or pairs page; every other page keeps its items, and a page neither shown nor opened is wholly unchanged; a newly shown page is never in number mode |
| Corpus.Session.OnWordRank | src/corpus.ts:53-57 | the ranking's `data` and the mode update, as `Transition` and `Press` say; an opened concordance or filter page shows what `init` computes for the entry under the cursor; a page not opened is unchanged |
| Corpus.Session.RouteFromWordRank | src/corpus.ts:53-57 | a key left to the ranking switches the mode along the graph, or crashes on an empty list; the opened page shows the entry under the cursor; a page not opened is unchanged |
| Corpus.Session.OnConcordancer | src/corpus.ts:58-62 | the concordance page's `data` and the mode update; its items stay as they are |
| Corpus.Session.RouteFromConcordancer | src/corpus.ts:58-62 | a key left to it switches the mode along the graph |
| Corpus.Session.OnWordFilter | src/corpus.ts:63-67 | the filter page's `data` and the mode update; its items stay as they are; an opened pairs page shows the pairs of the stored word, else the pairs page is unchanged |
| Corpus.Session.RouteFromWordFilter | src/corpus.ts:63-67 | a key left to it switches the mode along the graph; an opened pairs page shows the pairs of the stored word and position, else the pairs page is unchanged |
| Corpus.Session.OnWordPairs | src/corpus.ts:68-72 | the pairs page's `data` and the mode update; its items stay as they are; a reopened filter page shows the fuzzy items of the stored word, else the filter page is unchanged |
| Corpus.Session.RouteFromWordPairs | src/corpus.ts:68-72 | a key left to it switches the mode along the graph; a reopened filter page shows the fuzzy items of the stored word and position, else the filter page is unchanged |
| Corpus.Session.Apply | src/corpus.ts:55 | a returned mode becomes the mode; a failure stops the program; nothing else changes |
| Corpus.Session.RightThenEscape | src/corpus.ts:309-371 | RIGHT and then ESCAPE on the ranking return to the ranking with the same cursor |
| RankFile.MatchRankLine | src/corpus.ts:543-544 | a match has a non-empty digit count and a non-empty word without line terminators, and the line is exactly `count "word"` |
| RankFile.MatchRankLineAccepts | src/corpus.ts:543-544 | conversely, every line of that shape matches with exactly those captures |
| RankFile.SplitWordRank | src/corpus.ts:542-546 | every entry is the captures of some matching line, and there are no more entries than lines |
| RankFile.SplitWordRankConcat | src/corpus.ts:542-546 | parsing works line by line: it distributes over concatenation, so order is kept |
| RankFile.SplitWordRankSingle | src/corpus.ts:542-546 | one line is kept, as its captures, exactly when it matches |
| RankFile.ParseExample | src/corpus.ts:542-546 | `0007 "hello"` gives the count `0007`, kept as text, and the word `hello`; a non-matching line is dropped |
| Concordance.Pattern | src/corpus.ts:374 | the pattern is the word between two spaces |
| Concordance.FirstMatch | src/corpus.ts:374-375 | the leftmost case-insensitive occurrence at or after the start, or none |
| Concordance.Test | src/corpus.ts:375 | `test` on a global expression: true exactly when a match starts at or after `lastIndex`; the new `lastIndex` is the end of the leftmost such match (no match starts between the old `lastIndex` and it), or 0 when there is none |
| Concordance.GlobalFilter | src/corpus.ts:373-377 | the loop keeps exactly the lines `Survivors` keeps from `lastIndex` 0 |
| Concordance.SurvivorsWithinContains | src/corpus.ts:373-377 | what the as-written filter keeps is a subsequence of what the intended filter keeps |
| Concordance.Survivors | src/corpus.ts:373-377 | what `filter` keeps, with `lastIndex` carried from line to line: a subsequence of the corpus lines, each one holding the word between spaces |
| Concordance.FirstOccurrenceKept | src/corpus.ts:373-377 | the first corpus line holding the word is always kept |
| Concordance.FirstLineMatchEndsAtSix | src/corpus.ts:374-375 | in "a cat ran" the match of " cat " ends at 6 |
| Concordance.SecondLineMissedFromSix | src/corpus.ts:374-375 | searching "my cat ate" from 6 fails and resets `lastIndex` |
| Concordance.BothLinesContainWord | src/corpus.ts:374 | both lines of the example hold " cat " |
| Concordance.ResumedSearchDropsLine | src/corpus.ts:373-377 | on those two lines the as-written filter keeps only the first line, while the intended filter keeps both |
| Concordance.ContainsFilter | src/corpus.ts:373-377 | the intended filter: a line is kept exactly when it is a corpus line holding the pattern; each kept line as often as in the corpus; the result is a subsequence of the corpus, in order |
| Concordance.ContainsFilterConcat | src/corpus.ts:373-377 | the intended filter works line by line: it distributes over concatenation, which pins order and repetitions |
| Concordance.ContainsFilterSingle | src/corpus.ts:373-377 | one line is kept exactly when it holds the pattern |
| Concordance.ConcordanceOf | src/corpus.ts:373-377 | the intended concordance: exactly the corpus lines holding ` word `, case-insensitively, each as often as in the corpus, in corpus order |
| Pairs.LineTokens | src/corpus.ts:461 | a line's tokens: at least one, none holding a space |
| Pairs.TokenLines | src/corpus.ts:461 | one token list per corpus line, in order |
| Pairs.Find | src/corpus.ts:513 | `indexOf`: -1 exactly when the word is absent, else its first position |
| Pairs.Windows | src/corpus.ts:509-525 | `pair`: a line of exactly `maxLen` tokens comes back as its tokens, unjoined; otherwise at most `2 * (maxLen - 1)` windows, and none when the word is absent (width 2) |
| Pairs.Pair | src/corpus.ts:509-525 | the loop collects exactly the joined windows from `max(0, w - 1)` up to `min(len - 1, w + 1)`, the last excluded |
| Pairs.PairCoversWord | src/corpus.ts:509-525 | on a line of more than two tokens holding the word, the windows are the one ending at its first occurrence (unless first) and the one starting there (unless last): one or two windows |
| Pairs.WindowsAround | src/corpus.ts:512-524 | which windows the loop visits, for the word first, last, or in between |
| Pairs.Matching | src/corpus.ts:495 | a line is used exactly when it has more than two tokens and holds the word |
| Pairs.MatchingConcat | src/corpus.ts:495 | the two filters work line by line: they distribute over concatenation, which pins order and repetitions |
| Pairs.MatchingSingle | src/corpus.ts:495 | one line is kept exactly when it has more than two tokens and holds the word |
| Pairs.PairsOf | src/corpus.ts:495-496 | every window produced comes from a line of more than two tokens holding the word, as one of the windows `pair` gives there |
| Pairs.FlatMapPairs | src/corpus.ts:496 | the windows of every used line, in order |
| Pairs.SortPairs | src/corpus.ts:491-507 | the result is the sorted tally of all windows of the word |
| Pairs.PairsComeFromLines | src/corpus.ts:495-496 | every window comes from one of the lines it was produced for |
| Pairs.SortedPairs | src/corpus.ts:491-525 | the distinct windows, each once, each with its number of occurrences; counts never increase; equal counts keep production order; the counts sum to the number of windows; every window lies around the word in a used line |
| Pairs.PairLine | src/corpus.ts:527-533 | the line is empty exactly when there is no item or the list is empty |
| Pairs.PairLinesAligned | src/corpus.ts:527-533 | on a sorted page every count is zero-padded to the first count's width and still reads as that count |
| Ranking.Distinct | src/corpus.ts:502 | the distinct elements: the same members, no duplicates |
| Ranking.IndexOf | src/corpus.ts:502 | `indexOf`: the first position holding the element |
| Ranking.Count | src/init/rank.ts:15-20 | the number of occurrences; its properties are those of `Ranking.CountSnoc` and `Ranking.CountAbsent` |
| Ranking.CountSnoc | src/init/rank.ts:15-20 | one more string adds one to its own count and leaves every other count alone, as `counts.set(w, counts.get(w) + 1)` does |
| Ranking.DistinctSnoc | src/init/rank.ts:15-20 | one more string becomes a new key at the end exactly when it has not occurred yet, as a `Map` does |
| Ranking.DistinctInFirstOccurrenceOrder | src/init/rank.ts:17-22 | the distinct elements come in the order of their first occurrences, as a `Map`'s keys do |
| Ranking.CountAbsent | src/init/rank.ts:17-20 | a string occurs zero times exactly when it is absent |
| Ranking.CountOccurrences | src/init/rank.ts:15-20 | the map loop: its keys in insertion order are the distinct words; a word is a key exactly when it occurs; each count is its number of occurrences |
| Ranking.Attach | src/init/rank.ts:22 | each key paired with its count, in key order |
| Ranking.Tally | src/init/rank.ts:15-22 | the map's entries in insertion order; its properties are those of `Ranking.TallyFacts` |
| Ranking.TallyFacts | src/init/rank.ts:15-22 | the map's entries: every word once, with its count of at least 1; counts sum to the number of words |
| Ranking.InsertFacts | src/init/rank.ts:22-23 | inserting into a sorted list keeps it sorted and adds exactly that element |
| Ranking.SortDesc | src/init/rank.ts:22-23 | the sort by `b - a`; its properties are those of `Ranking.SortDescFacts` and `Ranking.SortDescStable` |
| Ranking.SortDescFacts | src/init/rank.ts:22-23 | the sort by `b - a` is non-increasing and a permutation, and keeps the members and the sum of the counts |
| Ranking.SortDescStable | src/init/rank.ts:22-23 | the sort is stable: the entries with any one count keep their input order |
| Ranking.RankedFacts | src/init/rank.ts:15-23 | the sorted tally: every distinct word exactly once with its number of occurrences; counts never increase; counts sum to the number of words |
| Ranking.RankedTies | src/init/rank.ts:22-23 | equal counts keep first-occurrence order |
| RankWords.MapLower | src/init/rank.ts:14 | each piece lower-cased, in order |
| RankWords.NonEmptyOnly | src/init/rank.ts:14 | a piece survives exactly when it is a non-empty input piece |
| RankWords.NonEmptyOnlyConcat | src/init/rank.ts:14 | the filter works piece by piece: it distributes over concatenation, so every non-empty piece survives, in order, as often as it occurs |
| RankWords.NonEmptyOnlySingle | src/init/rank.ts:14 | one piece survives exactly when it is not empty |
| RankWords.Words | src/init/rank.ts:14 | split on whitespace runs, lower-cased, empty pieces dropped; its property is that of `RankWords.WordsAreTokens` |
| RankWords.WordsAreTokens | src/init/rank.ts:14 | every token is non-empty and holds no whitespace and no upper-case letter |
| RankWords.FormatLines | src/init/rank.ts:26 | line `i` is entry `i`, formatted |
| RankWords.RankedText | src/init/rank.ts:22-28 | the output text; its properties are those of `RankWords.RankedLines`, `RankWords.NoWordsNoText` and `RankWords.RankTextRoundTrip` |
| RankWords.RankWordsOf | src/init/rank.ts:1-29 | the output is the ranked text of the tokens of the sanitised input |
| RankWords.NoWordsNoText | src/init/rank.ts:25-26 | no token gives the empty string |
| RankWords.RankedLines | src/init/rank.ts:25-26 | line `i` is entry `i` of the sorted tally; its count is zero-padded to exactly the first (largest) count's width and still denotes the count |
| RankWords.FormatLineHasNoBreak | src/init/rank.ts:26 | a formatted line holds no line break |
| RankWords.SplitFormatted | src/init/rank.ts:26 | parsing the formatted lines gives back every entry, in order |
| RankWords.EmptyTextParsesToNothing | src/corpus.ts:542-546 | an empty rank file gives no entries |
| RankWords.RankTextRoundTrip | src/init/rank.ts:22-28 | splitting the ranked text on line breaks and parsing it with `splitWordRank` gives back every entry, in order, as its padded count and its word |
| RankWords.TokensRoundTrip | src/init/rank.ts:22-28 | the same round trip for any list of tokens |
| Text.Lower | src/init/rank.ts:14 | `toLowerCase` keeps whitespace, and leaves no upper-case ASCII letter |
| Text.SplitRuns | src/init/rank.ts:14 | a split on separator runs gives at least one piece, and no piece holds a separator |
| Text.SplitLines | src/init/stats.ts:8 | a split on `\r?\n` gives at least one line, even for the empty text, and no line holds `\n` |
| Text.SplitLinesJoin | src/init/rank.ts:26 | joining lines without breaks by `\n` and splitting on `\r?\n` gives them back |
| Text.PaddedNumeral | src/init/rank.ts:26 | a `padStart`ed numeral is all digits, has the padded width, and denotes the same number |
| Text.PadStart | src/init/rank.ts:26 | `padStart` gives the larger of the string's length and the width |
| Text.PadStartShape | src/init/rank.ts:26 | it only adds fill characters in front: the original string is the suffix |
| Text.DecLengthMonotone | src/init/rank.ts:25 | a larger count never has fewer digits |
| Text.ValueDec | src/init/rank.ts:26 | a count's numeral reads back as the count |
| Stats.IsUpperLine | src/init/stats.ts:14 | the upper-case shape; its properties are those of `Stats.ShapesAreDisjoint`, `Stats.OneLetterWords` and `Stats.SecondCharacter` |
| Stats.IsLowerLine | src/init/stats.ts:18 | the lower-case shape; its properties are those of the same lemmas |
| Stats.Uppercase | src/init/stats.ts:13-16 | the upper-case counter after all lines: at most the number of lines |
| Stats.Lowercase | src/init/stats.ts:13-19 | the lower-case counter after all lines: at most the number of lines |
| Stats.Capital | src/init/stats.ts:7-27 | the loop's counters are the numbers of upper-case lines and of other lower-case lines among the `\r?\n` lines |
| Stats.CountsBounded | src/init/stats.ts:13-21 | each line raises at most one counter: the sum is at most the number of lines |
| Stats.ShapesAreDisjoint | src/init/stats.ts:14-18 | no line has both shapes |
| Stats.LowercaseIgnoresOrder | src/init/stats.ts:14-19 | so the lower-case count is the number of lines with the lower-case shape |
| Stats.LowerLines | src/init/stats.ts:18 | the lines with the lower-case shape |
| Stats.CountedLinesStartWithSpaceLetter | src/init/stats.ts:14-18 | a counted line starts with a space and a letter |
| Stats.OneLetterWords | src/init/stats.ts:14-18 | " A " and " I " are upper-case, " a " and " i " lower-case; " B " and " b " are neither |
| Stats.SecondCharacter | src/init/stats.ts:14-18 | " AB" and " A1" count as neither; " Ab" is upper-case; " aB" is lower-case and " a1" is not; a line without the leading space does not count |
| Stats.EmptyTextCountsNothing | src/init/stats.ts:8-26 | the empty text is one empty line, and both counters stay 0 |
| Utils.WordClassToString | src/_utils.ts:46-63 | a single class is returned as it is; a list becomes its English list |
| Utils.English | src/_utils.ts:49-62 | the English list; its shapes are those of `Utils.EnglishShapes`, and `Utils.BuiltIsEnglish` shows the loop writes it |
| Utils.BuiltIsEnglish | src/_utils.ts:49-62 | the loop writes exactly the English list |
| Utils.BuiltPrefix | src/_utils.ts:50-55 | before the last two of three or more elements, each element is followed by `, ` |
| Utils.JoinSnoc | src/_utils.ts:50-55 | one more element adds one separator and the element |
| Utils.BuiltTwo | src/_utils.ts:53-58 | two elements give "a and b" |
| Utils.BuiltMany | src/_utils.ts:50-59 | three or more give `a, b, ..., and z` |
| Utils.EnglishShapes | src/_utils.ts:49-62 | [] gives "", [a] gives a, [a, b] gives "a and b", [a, b, c] gives "a, b, and c" |
| Utils.SearchWord | src/_utils.ts:12-19 | an empty input gives no result; otherwise the matcher's answer |
| Validate.Strings | src/init/_validate.ts:19 | nothing survives exactly when no entry is a string |
| Validate.StringsOfTexts | src/init/_validate.ts:18-19 | an array's strings all survive, in order |
| Validate.StringsOfAll | src/init/_validate.ts:18-19 | the filtered list is `input1`, if it is a string, and then `input2`'s strings |
| Validate.CollapseInput | src/init/_validate.ts:17-22 | the result is null exactly when neither argument holds a string; otherwise `input1` first and then `input2`'s strings in order |
| Validate.ValidatePath | src/init/_validate.ts:5-15 | `i` when it is a non-empty string; else `i2` when `i` is missing and `i2` is a non-empty string; otherwise "." |
| Validate.EmptyPathMasksSecond | src/init/_validate.ts:6-8 | an empty `i` masks every `i2` and gives "." |
| Validate.FirstMissing | src/init/_validate.ts:28-33 | the first path from a start that does not exist, after which every earlier path exists; or none missing |
| Validate.Checks | src/init/_validate.ts:24-38 | no input exactly when `collapseInput` gives null; a reported missing path is a collapsed path that does not exist; otherwise every collapsed path exists and all are unpacked |
| Validate.StopsAtFirstMissing | src/init/_validate.ts:28-33 | the reported path is the first missing one: every path before it exists |
| Validate.ValidateInput | src/init/_validate.ts:24-38 | the loop yields exactly `Checks` |
| Entry.TrailingRun | src/entry.ts:46-49 | the longest suffix made of one character class |
| Entry.Back | src/entry.ts:45-50 | the number of characters ctrl-W removes is at most the buffer's length |
| Entry.Allowed | src/entry.ts:73 | the allowed characters; `Entry.MatchesAllowedIff` and `Entry.AppendIffAllowed` state what the test does with them |
| Entry.Edit | src/entry.ts:28-82 | every chunk either appends itself whole or leaves a prefix of the buffer |
| Entry.MatchesAllowedIff | src/entry.ts:73 | the append test accepts exactly the non-empty chunks of allowed characters |
| Entry.BackspaceDropsLast | src/entry.ts:31-41 | `%08` removes exactly the last character, and nothing from an empty buffer |
| Entry.DeleteWordAfterWord | src/entry.ts:43-61 | `%17` after a word removes that word and the spaces before it, and leaves a prefix that is empty or ends in a non-space |
| Entry.DeleteWordAfterSpaces | src/entry.ts:43-61 | `%17` after spaces removes exactly the trailing spaces |
| Entry.DeletionLeavesPrefix | src/entry.ts:31-61 | the deletion keys leave a prefix of the buffer, and an empty buffer empty |
| Entry.AppendIffAllowed | src/entry.ts:72-80 | any other chunk is appended whole exactly when all its characters are allowed, else ignored |
| Entry.EscapeSequenceIgnored | src/entry.ts:72-80 | an arrow key's escape sequence leaves the buffer unchanged |
| Entry.HandleSigInt | src/entry.ts:5-13 | the process exits exactly on the single character 3 |
| Entry.SearchPrompt.constructor | src/entry.ts:26 | the buffer starts empty |
| Entry.SearchPrompt.Receive | src/entry.ts:17-103 | the interrupt listener runs first and ends the prompt on `%03`; otherwise the buffer is edited, and return ends the prompt |
| Entry.SearchPrompt.Line | src/entry.ts:28-82 | the buffer becomes `Edit(old buffer, chunk)`; return submits |

## Left out

- Rendering is not modelled. That covers `draw`, `redraw`, `drawNum`, `formatLine`, `formatIndex`, `formatMode` and the terminal writes of `exitProgram` and of the search prompt's `draw`. All of it is ANSI output depending on `stdout.columns`. The one exception is `WordPairs.formatLine`'s padding (`Pairs.PairLine`).
- Terminal setup is not modelled: `stdin.on`, `setRawMode` and the promise around `initStuff`. `process.exit` is the status `Exited`, or `Submitted`/`Interrupted` at the prompt.
- The key constants `STDIN.*` come from a module that is not part of this model. Keys are an enumeration. Every byte chunk not named by it (a pasted string, a key the browser ignores) is `Other`.
- `uFuzzy` (src/corpus.ts:432-433) and `fuzzyjs` (src/_utils.ts:22-23) are foreign code. They are parameters. Only `null` versus an array, and the positions in the answer, are modelled.
- Corpus.WordFilter.constructor: requires that the matcher answers only with positions of the list it was given. uFuzzy's own guarantee is not part of this model. A position outside the list would make `allItems[i]!` undefined.
- `sanitize` and the replacement chain of src/init/rank.ts:2-12 are parameters. They are regular-expression work on emoji surrogate ranges and punctuation, and their module is not part of this model.
- `escapeRegex` is assumed to make the word match literally.
- Case folding (`toLowerCase`, the `i` flag) covers the ASCII letters only. In the prompt's allowed set, `\p{L}` is the ASCII letters. Full Unicode case mapping and letter properties are not modelled.
- Strings are sequences of Unicode scalar values, not UTF-16 code units. `encodeURIComponent`'s `URIError` on a lone surrogate is not modelled.
- JavaScript numbers are unbounded naturals here. Counts beyond 2^53 and `parseInt` precision loss on very long buffers are not modelled.
- `Array.prototype.sort` is modelled by a stable insertion sort of the same order. Only the result is modelled, not the comparisons.
- Validate.ValidatePath: the `mkdir` of a missing directory is left out (file-system I/O).
- The existence check in `validateInput` is the parameter `pathExists`. `cleanupZip` and the thrown error become the outcome `DoesNotExist`. `doUnzip` becomes `Unzip(paths)` (archive I/O).
- `getStats` only wraps `capital` in a record and is left out.
- The prompt's `%0D` case clears the screen and exits the process. The model marks the prompt `Submitted` and leaves the buffer as it is.
- Extraction (src/utils/collect.ts, src/init/collect.ts), archiving (src/_zip.ts), the batch scripts (src/analyze.ts, src/index.ts, src/init.ts) and the CLI wiring (bin/index.js, src/bin.ts) are file-system and process plumbing. They are not modelled.
- The command-line copies src/rank.ts and src/utils.ts duplicate `rankWords` and `capital` around file I/O and are not modelled.

## Findings

| source | as written | input that shows it | evidently intended | confidence | as-written member | corrected member |
|---|---|---|---|---|---|---|
| src/corpus.ts:373-377 | the regular expression has the flag `g`, so `test` keeps `lastIndex` and the search in the next line starts where the previous match ended | the word `cat` on the corpus lines "a cat ran" and "my cat ate": the first match ends at 6, the second line is searched from 6 and is dropped | keep every corpus line containing ` word `, case-insensitively | not executed | Concordance.ResumedSearchDropsLine | Concordance.ConcordanceOf |
