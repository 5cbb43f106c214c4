/**
 * The WORDPAIRS page's items (`WordPairs` in src/corpus.ts): every corpus
 * line is lower-cased, sanitised and cut into tokens; for the selected word,
 * every line of more than `maxLen` tokens containing it contributes the
 * two-token windows around the word's first occurrence, and the distinct
 * windows are listed with their number of occurrences, most frequent first.
 */
module Pairs {
  import opened Wrappers
  import opened Text
  import opened Ranking

  /** `maxLen` in `sort`: the window width. */
  const MaxLen: nat := 2

  predicate IsSpace(c: char) {
    c == ' '
  }

  /** `sanitize(line.toLowerCase())` then `.trim().split(/ +/g)`. */
  function LineTokens(line: string, sanitize: string -> string): (ts: seq<string>)
    ensures |ts| >= 1
    ensures forall t, k :: t in ts && 0 <= k < |t| ==> t[k] != ' '
  {
    SplitRuns(Trim(sanitize(LowerString(line))), IsSpace)
  }

  /** `allItems` of the page: one token list per corpus line, in corpus order. */
  function TokenLines(textLines: seq<string>, sanitize: string -> string): (r: seq<seq<string>>)
    ensures |r| == |textLines|
    ensures forall i :: 0 <= i < |textLines| ==> r[i] == LineTokens(textLines[i], sanitize)
  {
    if textLines == [] then [] else [LineTokens(textLines[0], sanitize)] + TokenLines(textLines[1..], sanitize)
  }

  /** `line.indexOf(word)`: the first position of `word`, or -1. */
  function Find(line: seq<string>, word: string): (r: int)
    ensures -1 <= r < |line|
    ensures r == -1 <==> word !in line
    ensures r >= 0 ==> line[r] == word && forall k :: 0 <= k < r ==> line[k] != word
  {
    if word in line then IndexOf(line, word) else -1
  }

  /** `line.slice(i, i + maxLen).join(" ")`: `slice` stops at the end of the line. */
  function Window(line: seq<string>, i: nat, maxLen: nat): string
    requires i < |line|
  {
    Join(line[i..Min(i + maxLen, |line|)], " ")
  }

  /** The first and the last start position `pair` walks through, the last excluded. */
  function WindowStart(line: seq<string>, word: string, maxLen: nat): int {
    Max(0, Find(line, word) - (maxLen - 1))
  }

  function WindowEnd(line: seq<string>, word: string, maxLen: nat): int {
    Min(|line| - 1, Find(line, word) + (maxLen - 1))
  }

  /**
   * What `pair(word, line, maxLen)` returns. A line of exactly `maxLen`
   * tokens comes back as its tokens, not joined. Otherwise there are at most
   * `2 * (maxLen - 1)` windows, and with the page's width none at all when
   * the word is absent.
   */
  function Windows(word: string, line: seq<string>, maxLen: nat): (r: seq<string>)
    ensures |line| == maxLen ==> r == line
    ensures |line| != maxLen && maxLen >= 1 ==> |r| <= 2 * (maxLen - 1)
    ensures |line| != maxLen && maxLen <= MaxLen && word !in line ==> r == []
  {
    if |line| == maxLen then line
    else
      var lo, hi := WindowStart(line, word, maxLen), WindowEnd(line, word, maxLen);
      if hi <= lo then []
      else seq(hi - lo, k requires 0 <= k < hi - lo => Window(line, lo + k, maxLen))
  }

  /** `pair(word, line, maxLen)`: the loop that collects the joined windows. */
  method Pair(word: string, line: seq<string>, maxLen: nat) returns (slices: seq<string>)
    ensures slices == Windows(word, line, maxLen)
  {
    if |line| == maxLen {
      return line;
    }
    var offset := maxLen - 1;
    var wordIndex := Find(line, word);
    var min := Max(0, wordIndex - offset);
    var max := Min(|line| - 1, wordIndex + offset);
    assert min == WindowStart(line, word, maxLen) && max == WindowEnd(line, word, maxLen);
    assert 0 <= min && max <= |line| - 1;
    slices := [];
    var i := min;
    while i < max
      invariant 0 <= min <= i && max <= |line| - 1 && (i <= max || i == min)
      invariant |slices| == i - min
      invariant forall k :: 0 <= k < |slices| ==> slices[k] == Window(line, min + k, maxLen)
    {
      slices := slices + [Window(line, i, maxLen)];
      i := i + 1;
    }
    assert |slices| == if max <= min then 0 else max - min;
  }

  lemma JoinTwo(a: string, b: string)
    ensures Join([a, b], " ") == a + " " + b
  {
    assert [a, b][1..] == [b];
  }

  /**
   * With the window width 2 and a line of more than two tokens holding the
   * word, `pair` yields the window ending at the word's first occurrence
   * (unless it is the first token) and the one starting there (unless it is
   * the last): one or two windows, each covering that occurrence.
   */
  lemma PairCoversWord(word: string, line: seq<string>)
    requires |line| > MaxLen && word in line
    ensures var w := IndexOf(line, word);
      Windows(word, line, MaxLen) ==
        (if w > 0 then [line[w - 1] + " " + line[w]] else []) +
        (if w < |line| - 1 then [line[w] + " " + line[w + 1]] else [])
    ensures 1 <= |Windows(word, line, MaxLen)| <= 2
  {
    var w := IndexOf(line, word);
    if w > 0 {
      WindowAt(line, w - 1);
    }
    if w < |line| - 1 {
      WindowAt(line, w);
    }
    WindowsAround(word, line);
  }

  lemma WindowAt(line: seq<string>, i: nat)
    requires i + 1 < |line|
    ensures Window(line, i, MaxLen) == line[i] + " " + line[i + 1]
  {
    assert line[i..i + 2] == [line[i], line[i + 1]];
    JoinTwo(line[i], line[i + 1]);
  }

  lemma WindowsAround(word: string, line: seq<string>)
    requires |line| > MaxLen && word in line
    ensures var w, n := IndexOf(line, word), |line|;
      Windows(word, line, MaxLen) ==
        if w == 0 then [Window(line, 0, MaxLen)]
        else if w == n - 1 then [Window(line, n - 2, MaxLen)]
        else [Window(line, w - 1, MaxLen), Window(line, w, MaxLen)]
  {
    var w, n := IndexOf(line, word), |line|;
    assert Find(line, word) == w;
    WindowsFrom(word, line, WindowStart(line, word, MaxLen), WindowEnd(line, word, MaxLen));
  }

  /** Outside the special case of a line of exactly `maxLen` tokens, `pair` walks the starts from `lo` to `hi`. */
  lemma WindowsFrom(word: string, line: seq<string>, lo: int, hi: int)
    requires |line| != MaxLen && lo == WindowStart(line, word, MaxLen) && hi == WindowEnd(line, word, MaxLen)
    requires 0 <= lo < hi <= |line| - 1
    ensures |Windows(word, line, MaxLen)| == hi - lo
    ensures forall k :: 0 <= k < hi - lo ==> Windows(word, line, MaxLen)[k] == Window(line, lo + k, MaxLen)
  {
  }

  /** `allItems.filter((line) => line.length > maxLen).filter((line) => line.includes(word))` */
  function Matching(allItems: seq<seq<string>>, word: string): (r: seq<seq<string>>)
    ensures forall l :: l in r <==> l in allItems && |l| > MaxLen && word in l
  {
    if allItems == [] then []
    else (if |allItems[0]| > MaxLen && word in allItems[0] then [allItems[0]] else []) + Matching(allItems[1..], word)
  }

  /** The two filters work line by line, so they keep the order and the repetitions of the lines. */
  lemma {:induction false} MatchingConcat(a: seq<seq<string>>, b: seq<seq<string>>, word: string)
    ensures Matching(a + b, word) == Matching(a, word) + Matching(b, word)
  {
    if a == [] {
      assert a + b == b;
    } else {
      assert (a + b)[0] == a[0];
      assert (a + b)[1..] == a[1..] + b;
      MatchingConcat(a[1..], b, word);
    }
  }

  /** A single line is kept exactly when it is longer than `maxLen` and holds the word. */
  lemma MatchingSingle(l: seq<string>, word: string)
    ensures Matching([l], word) == if |l| > MaxLen && word in l then [l] else []
  {
    assert [l][1..] == [];
  }

  /** `lines.flatMap((line) => pair(word, line, maxLen))` */
  function FlatWindows(lines: seq<seq<string>>, word: string): seq<string> {
    if lines == [] then [] else Windows(word, lines[0], MaxLen) + FlatWindows(lines[1..], word)
  }

  /** Every window produced for the word's matching lines, in production order. */
  function PairsOf(allItems: seq<seq<string>>, word: string): (r: seq<string>)
    ensures forall p :: p in r ==>
      exists l :: l in allItems && |l| > MaxLen && word in l && p in Windows(word, l, MaxLen)
  {
    PairsComeFromLines(Matching(allItems, word), word);
    FlatWindows(Matching(allItems, word), word)
  }

  /** `allMatch.flatMap((line) => this.pair(word, line, maxLen))` */
  method FlatMapPairs(allMatch: seq<seq<string>>, word: string) returns (allPairs: seq<string>)
    ensures allPairs == FlatWindows(allMatch, word)
  {
    allPairs := [];
    var i := 0;
    while i < |allMatch|
      invariant 0 <= i <= |allMatch|
      invariant allPairs + FlatWindows(allMatch[i..], word) == FlatWindows(allMatch, word)
    {
      assert allMatch[i..][1..] == allMatch[i + 1..];
      var slices := Pair(word, allMatch[i], MaxLen);
      allPairs := allPairs + slices;
      i := i + 1;
    }
  }

  /** `sort(word)`: count the windows in a map, list each once in first-production order, sort by count. */
  method SortPairs(allItems: seq<seq<string>>, word: string) returns (sortPairs: seq<Counted>)
    ensures sortPairs == Ranked(PairsOf(allItems, word))
  {
    var allMatch := Matching(allItems, word);
    var allPairs := FlatMapPairs(allMatch, word);
    var keys, pairsMap := CountOccurrences(allPairs);
    var counted := seq(|keys|, k requires 0 <= k < |keys| => Counted(keys[k], pairsMap[keys[k]]));
    assert counted == Tally(allPairs);
    sortPairs := SortDesc(counted);
  }

  /** Every window comes from a matching line, as one of the windows around the word there. */
  lemma {:induction false} PairsComeFromLines(lines: seq<seq<string>>, word: string)
    ensures forall p :: p in FlatWindows(lines, word) ==>
      exists l :: l in lines && p in Windows(word, l, MaxLen)
    decreases |lines|
  {
    if lines != [] {
      PairsComeFromLines(lines[1..], word);
      forall p | p in FlatWindows(lines, word) ensures exists l :: l in lines && p in Windows(word, l, MaxLen) {
        if p in Windows(word, lines[0], MaxLen) {
          assert lines[0] in lines;
        } else {
          assert p in FlatWindows(lines[1..], word);
          var l :| l in lines[1..] && p in Windows(word, l, MaxLen);
          assert l in lines;
        }
      }
    }
  }

  /**
   * The page's items: the distinct windows, each with its number of
   * occurrences, by non-increasing count, equal counts in first-production
   * order; every window of every line that holds the word (with more than two
   * tokens) is one of the one or two windows around the word's first
   * occurrence in that line.
   */
  lemma SortedPairs(allItems: seq<seq<string>>, word: string, k: nat)
    ensures var ps := PairsOf(allItems, word);
      && (forall e :: e in Ranked(ps) ==> e.text in ps && e.count == Count(ps, e.text) && e.count >= 1)
      && (forall p :: p in ps ==> exists e :: e in Ranked(ps) && e.text == p)
      && (forall i, j :: 0 <= i < j < |Ranked(ps)| ==> Ranked(ps)[i].text != Ranked(ps)[j].text)
      && NonIncreasing(Ranked(ps))
      && WithCount(Ranked(ps), k) == WithCount(Tally(ps), k)
      && SumCounts(Ranked(ps)) == |ps|
    ensures forall p :: p in PairsOf(allItems, word) ==>
      exists l :: l in allItems && |l| > MaxLen && word in l && p in Windows(word, l, MaxLen)
  {
    RankedFacts(PairsOf(allItems, word));
    RankedTies(PairsOf(allItems, word), k);
  }

  /** `formatLine(item)`: the count padded to the width of the first item's count, then the window in brackets. */
  function PairLine(items: seq<Counted>, item: Option<Counted>): (r: string)
    ensures r == "" <==> items == [] || item.None?
  {
    if items == [] || item.None? then ""
    else PadStart(Dec(item.value.count), |Dec(items[0].count)|, '0') + " [ " + item.value.text + " ]"
  }

  /** On the sorted items every count is padded to the same width and still reads as the count. */
  lemma PairLinesAligned(items: seq<Counted>, i: nat)
    requires NonIncreasing(items) && i < |items|
    ensures var c := PadStart(Dec(items[i].count), |Dec(items[0].count)|, '0');
      && PairLine(items, Some(items[i])) == c + " [ " + items[i].text + " ]"
      && |c| == |Dec(items[0].count)| && AllDigits(c) && Value(c) == items[i].count
  {
    if i > 0 {
      assert items[0].count >= items[i].count;
    }
    DecLengthMonotone(items[i].count, items[0].count);
    PaddedNumeral(items[i].count, |Dec(items[0].count)|);
  }
}
