/**
 * The corpus browser (src/corpus.ts): four pages over one keyboard. The
 * ranked word list (WORDRANK), the corpus lines holding the selected word
 * (CONCORDANCER), the rank entries matching it fuzzily (WORDFILTER) and the
 * two-word windows around it (WORDPAIRS). Each page is a `Viewport` plus the
 * data its `init` derives; a key the viewport does not handle goes to the
 * page's `stringData`, which may open another page by calling its `init`.
 * `Session` is `initStuff`: the current mode and the dispatch of every key.
 */
module Corpus {
  import opened Wrappers
  import opened Ranking
  import opened Viewport
  import opened RankFile
  import Concordance
  import Pairs

  datatype Mode = WordRankMode | ConcordancerMode | WordFilterMode | WordPairsMode

  /** What `stringData` did: nothing, opened a page, or failed on a missing item (a `TypeError`). */
  datatype Outcome = Stay | Goto(mode: Mode) | Fault

  /** Whether the program still reads keys, was ended on purpose, or stopped with an uncaught exception. */
  datatype Status = Running | Exited | Crashed

  /**
   * The page graph: the mode a key opens from each page's `stringData`, if any.
   * RIGHT and LEFT lead away from the ranking, ESCAPE leads back to it.
   */
  function Edge(m: Mode, key: Key): (r: Option<Mode>)
    ensures r.Some? ==> key in {Left, Right, Escape} && r.value != m
    ensures key == Escape ==> r == if m == WordRankMode then None else Some(WordRankMode)
  {
    match m
    case WordRankMode =>
      if key == Right then Some(ConcordancerMode) else if key == Left then Some(WordFilterMode) else None
    case ConcordancerMode =>
      if key == Left || key == Escape then Some(WordRankMode) else None
    case WordFilterMode =>
      if key == Right || key == Escape then Some(WordRankMode) else if key == Left then Some(WordPairsMode) else None
    case WordPairsMode =>
      if key == Escape then Some(WordRankMode) else if key == Right then Some(WordFilterMode) else None
  }

  function Opposite(key: Key): Key {
    match key
    case Left => Right
    case Right => Left
    case _ => key
  }

  /** Every arrow step between pages is undone by the opposite arrow. */
  lemma ArrowsAreReversible(m: Mode, key: Key)
    requires key in {Left, Right} && Edge(m, key).Some?
    ensures Edge(Edge(m, key).value, Opposite(key)) == Some(m)
  {
  }

  /** From every page the ranking is at most two arrow steps away, and one ESCAPE away. */
  lemma RankingReachable(m: Mode)
    ensures m == WordRankMode || Edge(m, Escape) == Some(WordRankMode)
    ensures m == WordRankMode || Edge(m, Right) == Some(WordRankMode) || Edge(m, Left) == Some(WordRankMode)
      || (Edge(m, Right).Some? && Edge(Edge(m, Right).value, Right) == Some(WordRankMode))
  {
  }

  /**
   * One key in `initStuff`: an interrupt ends the program in any state; other
   * keys go to the current page's `data`, and a mode comes back only from
   * `stringData`. `len` and the cursor are the current page's.
   *
   * Nothing changes once the program has stopped. The mode changes only
   * outside number mode, for a key other than the interrupt, along an edge
   * of the page graph, and the program keeps running. The program crashes
   * exactly when RIGHT or LEFT is pressed on the ranking while its cursor
   * is on no entry.
   */
  function Transition(st: Status, m: Mode, c: Cursor, len: nat, key: Key): (r: (Status, Mode))
    ensures st != Running ==> r == (st, m)
    ensures r.1 != m ==> st == Running && key != CtrlC && !c.isNum && r.0 == Running && Edge(m, key) == Some(r.1)
    ensures r.0 == Crashed <==>
      st == Crashed || (st == Running && m == WordRankMode && key in {Left, Right} && !c.isNum && !(0 <= c.index < len))
  {
    if st != Running then (st, m)
    else if key == CtrlC then (Exited, m)
    else
      match Press(c, len, key).1
      case Consumed => (Running, m)
      case Quit => (Exited, m)
      case Unhandled =>
        match Edge(m, key)
        case None => (Running, m)
        case Some(next) => if m == WordRankMode && !(0 <= c.index < len) then (Crashed, m) else (Running, next)
  }

  /** `Transition` by what the page's `data` did with the key. */
  lemma TransitionCases(m: Mode, c: Cursor, len: nat, key: Key)
    requires key != CtrlC
    ensures Press(c, len, key).1 == Consumed ==> Transition(Running, m, c, len, key) == (Running, m)
    ensures Press(c, len, key).1 == Quit ==> Transition(Running, m, c, len, key) == (Exited, m)
    ensures Press(c, len, key).1 == Unhandled ==>
      Transition(Running, m, c, len, key) ==
        (match Edge(m, key)
         case None => (Running, m)
         case Some(next) => if m == WordRankMode && !(0 <= c.index < len) then (Crashed, m) else (Running, next))
  {
  }

  /** In number mode nothing but an interrupt stops the program or changes the page. */
  lemma NumberModeKeepsPage(m: Mode, c: Cursor, len: nat, key: Key)
    requires c.isNum && key != CtrlC
    ensures Transition(Running, m, c, len, key) == (Running, m)
  {
  }

  /** The interrupt listener: `%03` ends the program whatever the page and mode. */
  lemma InterruptAlwaysExits(m: Mode, c: Cursor, len: nat)
    ensures Transition(Running, m, c, len, CtrlC) == (Exited, m)
  {
  }

  /** The ranked word list: its items never change after construction. */
  class WordRank {
    const allItems: seq<RankEntry>
    const view: Viewport<RankEntry>

    constructor (rankedWords: seq<string>)
      ensures allItems == SplitWordRank(rankedWords)
      ensures fresh(view) && view.Valid() && view.items == allItems && view.State() == Cursor(0, false, "")
    {
      var items := SplitWordRank(rankedWords);
      allItems := items;
      view := new Viewport(items);
    }

    /** `init()`: only redraws; the items and the cursor stay as they were. */
    method Init() returns (m: Mode)
      ensures m == WordRankMode
    {
      m := WordRankMode;
    }

    /** `stringData`: RIGHT opens the concordances, LEFT the filter, for the word under the cursor. */
    method StringData(key: Key, concordancer: Concordancer, wordFilter: WordFilter) returns (next: Outcome)
      requires view.Valid() && concordancer.view.Valid() && wordFilter.view.Valid()
      requires wordFilter.allItems == allItems && view.items == allItems
      requires wordFilter.Sound() && view != wordFilter.view && view as object != concordancer.view as object
      modifies concordancer, concordancer.view, wordFilter, wordFilter.view
      ensures concordancer.view.Valid() && wordFilter.view.Valid()
      ensures next == match Edge(WordRankMode, key)
        case None => Stay
        case Some(m) => if 0 <= view.index < |view.items| then Goto(m) else Fault
      ensures next.Goto? && next.mode == ConcordancerMode ==>
        && concordancer.view.items == Concordance.Survivors(concordancer.allItems, Concordance.Pattern(view.items[view.index].word), 0)
        && concordancer.view.index == 0 && concordancer.stdIndex == view.index
      ensures next.Goto? && next.mode == WordFilterMode ==>
        && wordFilter.view.items == wordFilter.FuzzyItems(view.items[view.index].word, view.index)
        && wordFilter.view.index == 0 && wordFilter.stdIndex == view.index
        && wordFilter.word == view.items[view.index].word
      ensures !(next.Goto? && next.mode == ConcordancerMode) ==> unchanged(concordancer, concordancer.view)
      ensures !(next.Goto? && next.mode == WordFilterMode) ==> unchanged(wordFilter, wordFilter.view)
      ensures concordancer.view.isNum == old(concordancer.view.isNum) && wordFilter.view.isNum == old(wordFilter.view.isNum)
    {
      match key {
        case Right =>
          if !(0 <= view.index < |view.items|) {
            return Fault;
          }
          var currentWord := view.items[view.index].word;
          var m := concordancer.Init(currentWord, view.index);
          return Goto(m);
        case Left =>
          if !(0 <= view.index < |view.items|) {
            return Fault;
          }
          var currentWord := view.items[view.index].word;
          var m := wordFilter.Init(currentWord, view.index);
          return Goto(m);
        case _ =>
          return Stay;
      }
    }
  }

  /** The corpus lines holding the selected word. */
  class Concordancer {
    const allItems: seq<string>
    const view: Viewport<string>
    var stdIndex: nat

    constructor (textLines: seq<string>)
      ensures allItems == textLines && stdIndex == 0
      ensures fresh(view) && view.Valid() && view.items == textLines && view.State() == Cursor(0, false, "")
    {
      allItems := textLines;
      view := new Viewport(textLines);
      stdIndex := 0;
    }

    /**
     * `init(word, stdIndex)`: the lines `filter` keeps, the cursor at the top,
     * the rank position kept for display. `filter` is the global-regex search
     * whose position carries over from line to line, so the page shows a
     * subsequence of the lines that hold the word, possibly fewer of them.
     */
    method Init(word: string, stdIndex: nat) returns (m: Mode)
      requires view.Valid()
      modifies this, view
      ensures view.Valid() && m == ConcordancerMode
      ensures view.items == Concordance.Survivors(allItems, Concordance.Pattern(word), 0) && view.index == 0
      ensures Concordance.IsSubsequence(view.items, Concordance.ConcordanceOf(allItems, word))
      ensures this.stdIndex == stdIndex
      ensures view.isNum == old(view.isNum) && view.inputNumber == old(view.inputNumber)
    {
      var items := Concordance.GlobalFilter(allItems, word);
      Concordance.SurvivorsWithinContains(allItems, Concordance.Pattern(word), 0);
      view.Reset(items);
      this.stdIndex := stdIndex;
      m := ConcordancerMode;
    }

    /** `stringData`: LEFT and ESCAPE return to the ranking. */
    method StringData(key: Key, wordRank: WordRank) returns (next: Outcome)
      ensures next == match Edge(ConcordancerMode, key) case None => Stay case Some(m) => Goto(m)
    {
      match key {
        case Left =>
          var m := wordRank.Init();
          return Goto(m);
        case Escape =>
          var m := wordRank.Init();
          return Goto(m);
        case _ =>
          return Stay;
      }
    }
  }

  /** The rank entries whose word the fuzzy matcher relates to the selected word. */
  class WordFilter {
    const allItems: seq<RankEntry>
    /** `uFuzzy.filter`: the indices of the matching haystack entries, or `None` (`null`). */
    const matcher: (seq<string>, string) -> Option<seq<nat>>
    const view: Viewport<RankEntry>
    var stdIndex: nat
    var word: string

    constructor (rankedWords: seq<string>, matcher: (seq<string>, string) -> Option<seq<nat>>)
      requires MatcherSound(matcher)
      ensures Sound()
      ensures allItems == SplitWordRank(rankedWords) && this.matcher == matcher
      ensures stdIndex == 0 && word == ""
      ensures fresh(view) && view.Valid() && view.items == allItems && view.State() == Cursor(0, false, "")
    {
      var items := SplitWordRank(rankedWords);
      allItems := items;
      this.matcher := matcher;
      view := new Viewport(items);
      stdIndex := 0;
      word := "";
      new;
      assert Sound() by {
        forall w: string, k | 0 <= k < |Found(w)| ensures Found(w)[k] < |allItems| {
          assert |Names(allItems)| == |allItems|;
        }
      }
    }

    /** The matcher only answers with positions of the list it was given. */
    ghost predicate Sound() {
      forall w: string, k :: 0 <= k < |Found(w)| ==> Found(w)[k] < |allItems|
    }

    function Found(w: string): seq<nat> {
      matcher(Names(allItems), w).GetOr([])
    }

    function FuzzyItems(w: string, stdIndex: nat): seq<RankEntry>
      requires Sound() && stdIndex < |allItems|
    {
      assert Found(w) == matcher(Names(allItems), w).GetOr([]);
      Fuzzy(allItems, matcher(Names(allItems), w), stdIndex)
    }

    /** `init(word, stdIndex)` */
    method Init(word: string, stdIndex: nat) returns (m: Mode)
      requires view.Valid() && Sound() && stdIndex < |allItems|
      modifies this, view
      ensures view.Valid() && m == WordFilterMode
      ensures view.items == FuzzyItems(word, stdIndex) && view.index == 0
      ensures this.stdIndex == stdIndex && this.word == word
      ensures view.isNum == old(view.isNum) && view.inputNumber == old(view.inputNumber)
    {
      assert Found(word) == matcher(Names(allItems), word).GetOr([]);
      var items := Fuzzy(allItems, matcher(Names(allItems), word), stdIndex);
      view.Reset(items);
      this.stdIndex := stdIndex;
      this.word := word;
      m := WordFilterMode;
    }

    /** `stringData`: RIGHT and ESCAPE return to the ranking, LEFT opens the pairs of the same word. */
    method StringData(key: Key, wordRank: WordRank, wordPairs: WordPairs) returns (next: Outcome)
      requires wordPairs.view.Valid()
      modifies wordPairs, wordPairs.view
      ensures wordPairs.view.Valid()
      ensures next == match Edge(WordFilterMode, key) case None => Stay case Some(m) => Goto(m)
      ensures next == Goto(WordPairsMode) ==>
        && wordPairs.view.items == Ranked(Pairs.PairsOf(wordPairs.allItems, word)) && wordPairs.view.index == 0
        && wordPairs.word == word && wordPairs.stdIndex == stdIndex
      ensures next != Goto(WordPairsMode) ==> unchanged(wordPairs, wordPairs.view)
      ensures wordPairs.view.isNum == old(wordPairs.view.isNum)
    {
      match key {
        case Right =>
          var m := wordRank.Init();
          return Goto(m);
        case Escape =>
          var m := wordRank.Init();
          return Goto(m);
        case Left =>
          var m := wordPairs.Init(word, stdIndex);
          return Goto(m);
        case _ =>
          return Stay;
      }
    }
  }

  /** `uFuzzy.filter` only answers with positions of the list it searched. */
  ghost predicate MatcherSound(matcher: (seq<string>, string) -> Option<seq<nat>>) {
    forall ws: seq<string>, w: string, k :: 0 <= k < |matcher(ws, w).GetOr([])| ==> matcher(ws, w).GetOr([])[k] < |ws|
  }

  /** The words the matcher searches: `allItems.map(([, w]) => w)`. */
  function Names(items: seq<RankEntry>): (ws: seq<string>)
    ensures |ws| == |items| && forall i :: 0 <= i < |items| ==> ws[i] == items[i].word
  {
    seq(|items|, i requires 0 <= i < |items| => items[i].word)
  }

  /**
   * `fuzzy`: `(found || [stdIndex]).map((i) => allItems[i])`. Only `null`
   * falls back to the entry the page was opened on; an empty answer is an
   * array, hence truthy, and gives no items.
   */
  function Fuzzy(allItems: seq<RankEntry>, found: Option<seq<nat>>, stdIndex: nat): (items: seq<RankEntry>)
    requires found.Some? ==> forall k :: 0 <= k < |found.value| ==> found.value[k] < |allItems|
    requires found.None? ==> stdIndex < |allItems|
    ensures forall e :: e in items ==> e in allItems
    ensures found.None? ==> items == [allItems[stdIndex]]
    ensures found == Some([]) ==> items == []
    ensures found.Some? ==> |items| == |found.value| && forall k :: 0 <= k < |items| ==> items[k] == allItems[found.value[k]]
  {
    match found
    case None => [allItems[stdIndex]]
    case Some(idx) =>
      var items := seq(|idx|, k requires 0 <= k < |idx| => allItems[idx[k]]);
      assert forall k :: 0 <= k < |items| ==> items[k] in allItems;
      items
  }

  /** The two-word windows around the selected word. */
  class WordPairs {
    const allItems: seq<seq<string>>
    const view: Viewport<Counted>
    var stdIndex: nat
    var word: string

    constructor (textLines: seq<string>, sanitize: string -> string)
      ensures allItems == Pairs.TokenLines(textLines, sanitize)
      ensures stdIndex == 0 && word == ""
      ensures fresh(view) && view.Valid() && view.items == [] && view.State() == Cursor(0, false, "")
    {
      allItems := Pairs.TokenLines(textLines, sanitize);
      view := new Viewport([]);
      stdIndex := 0;
      word := "";
    }

    /** `init(word, stdIndex)`: the sorted windows of the word, the cursor at the top. */
    method Init(word: string, stdIndex: nat) returns (m: Mode)
      requires view.Valid()
      modifies this, view
      ensures view.Valid() && m == WordPairsMode
      ensures view.items == Ranked(Pairs.PairsOf(allItems, word)) && view.index == 0
      ensures this.stdIndex == stdIndex && this.word == word
      ensures view.isNum == old(view.isNum) && view.inputNumber == old(view.inputNumber)
    {
      var items := Pairs.SortPairs(allItems, word);
      view.Reset(items);
      this.stdIndex := stdIndex;
      this.word := word;
      m := WordPairsMode;
    }

    /** `stringData`: ESCAPE returns to the ranking, RIGHT reopens the filter of the same word. */
    method StringData(key: Key, wordRank: WordRank, wordFilter: WordFilter) returns (next: Outcome)
      requires wordFilter.view.Valid() && wordFilter.Sound() && stdIndex < |wordFilter.allItems|
      modifies wordFilter, wordFilter.view
      ensures wordFilter.view.Valid()
      ensures next == match Edge(WordPairsMode, key) case None => Stay case Some(m) => Goto(m)
      ensures next == Goto(WordFilterMode) ==>
        && wordFilter.view.items == wordFilter.FuzzyItems(word, stdIndex) && wordFilter.view.index == 0
        && wordFilter.word == word && wordFilter.stdIndex == stdIndex
      ensures next != Goto(WordFilterMode) ==> unchanged(wordFilter, wordFilter.view)
      ensures wordFilter.view.isNum == old(wordFilter.view.isNum)
    {
      match key {
        case Escape =>
          var m := wordRank.Init();
          return Goto(m);
        case Right =>
          var m := wordFilter.Init(word, stdIndex);
          return Goto(m);
        case _ =>
          return Stay;
      }
    }
  }

  /** `initStuff`: the four pages, the current mode, and the key dispatch. */
  class Session {
    const wordRank: WordRank
    const concordancer: Concordancer
    const wordFilter: WordFilter
    const wordPairs: WordPairs
    var mode: Mode
    var status: Status

    /** The session and its pages with their views: everything a key may change. */
    ghost function Repr(): set<object> {
      {this, wordRank, wordRank.view, concordancer, concordancer.view, wordFilter, wordFilter.view, wordPairs, wordPairs.view}
    }

    ghost predicate Valid()
      reads Repr()
    {
      && wordRank.view as object != wordFilter.view as object
      && wordRank.view.Valid() && concordancer.view.Valid() && wordFilter.view.Valid() && wordPairs.view.Valid()
      && wordRank.view.items == wordRank.allItems && wordFilter.allItems == wordRank.allItems
      && wordFilter.Sound()
      && (mode != WordRankMode ==> !wordRank.view.isNum)
      && (mode != ConcordancerMode ==> !concordancer.view.isNum)
      && (mode != WordFilterMode ==> !wordFilter.view.isNum)
      && (mode != WordPairsMode ==> !wordPairs.view.isNum)
      && (mode == WordFilterMode ==> wordFilter.stdIndex < |wordFilter.allItems|)
      && (mode == WordPairsMode ==> wordPairs.stdIndex < |wordFilter.allItems|)
    }

    /** The cursor of the page shown in mode `m`. */
    function CursorOf(m: Mode): Cursor
      reads this, wordRank.view, concordancer.view, wordFilter.view, wordPairs.view
    {
      match m
      case WordRankMode => wordRank.view.State()
      case ConcordancerMode => concordancer.view.State()
      case WordFilterMode => wordFilter.view.State()
      case WordPairsMode => wordPairs.view.State()
    }

    function LenOf(m: Mode): nat
      reads this, wordRank.view, concordancer.view, wordFilter.view, wordPairs.view
    {
      match m
      case WordRankMode => wordRank.view.len
      case ConcordancerMode => concordancer.view.len
      case WordFilterMode => wordFilter.view.len
      case WordPairsMode => wordPairs.view.len
    }

    /** The entry under the ranking's cursor, when there is one. */
    ghost predicate OnEntry()
      reads wordRank.view
    {
      0 <= wordRank.view.index < |wordRank.view.items|
    }

    /** The concordance page shows the lines `filter` keeps for `w`, opened from rank position `k`. */
    ghost predicate ConcordanceShows(w: string, k: int)
      reads concordancer, concordancer.view
    {
      && concordancer.view.items == Concordance.Survivors(concordancer.allItems, Concordance.Pattern(w), 0)
      && concordancer.view.index == 0 && concordancer.stdIndex == k
    }

    /** The filter page shows the fuzzy matches of `w`, opened from rank position `k`. */
    ghost predicate FilterShows(w: string, k: int)
      reads wordFilter, wordFilter.view
    {
      && 0 <= k < |wordFilter.allItems| && wordFilter.Sound()
      && wordFilter.view.items == wordFilter.FuzzyItems(w, k)
      && wordFilter.view.index == 0 && wordFilter.word == w && wordFilter.stdIndex == k
    }

    /** The pairs page shows the ranked windows of `w`, opened from rank position `k`. */
    ghost predicate PairsShows(w: string, k: int)
      reads wordPairs, wordPairs.view
    {
      && wordPairs.view.items == Ranked(Pairs.PairsOf(wordPairs.allItems, w))
      && wordPairs.view.index == 0 && wordPairs.word == w && wordPairs.stdIndex == k
    }

    /** The pages built from the rank file's lines and the corpus lines; the ranking is shown first. */
    constructor (rankedWords: seq<string>, textLines: seq<string>, sanitize: string -> string,
                 matcher: (seq<string>, string) -> Option<seq<nat>>)
      requires MatcherSound(matcher)
      ensures Valid()
      ensures fresh(wordRank) && fresh(wordRank.view) && fresh(concordancer) && fresh(concordancer.view)
      ensures fresh(wordFilter) && fresh(wordFilter.view) && fresh(wordPairs) && fresh(wordPairs.view)
      ensures mode == WordRankMode && status == Running
      ensures wordRank.view.items == SplitWordRank(rankedWords) && wordRank.view.State() == Cursor(0, false, "")
    {
      var rank := new WordRank(rankedWords);
      var conc := new Concordancer(textLines);
      var filter := new WordFilter(rankedWords, matcher);
      var pairs := new WordPairs(textLines, sanitize);
      wordRank, concordancer, wordFilter, wordPairs := rank, conc, filter, pairs;
      mode, status := WordRankMode, Running;
    }

    /**
     * One key on the standard input. The status and the mode move as
     * `Transition` says, the current page's cursor as `Press` says, and the
     * ranking's cursor only while the ranking is shown.
     */
    method Step(key: Key)
      requires Valid()
      modifies Repr()
      ensures Valid()
      ensures (status, mode) == Transition(old(status), old(mode), old(CursorOf(mode)), old(LenOf(mode)), key)
      ensures old(status) == Running && key != CtrlC ==>
        CursorOf(old(mode)) == Press(old(CursorOf(mode)), old(LenOf(mode)), key).0
      ensures old(mode) != WordRankMode ==> wordRank.view.State() == old(wordRank.view.State())
      ensures mode != old(mode) ==> !CursorOf(mode).isNum
      ensures old(mode) == WordRankMode && mode == ConcordancerMode ==>
        OnEntry() && ConcordanceShows(wordRank.view.items[wordRank.view.index].word, wordRank.view.index)
      ensures old(mode) == WordRankMode && mode == WordFilterMode ==>
        OnEntry() && FilterShows(wordRank.view.items[wordRank.view.index].word, wordRank.view.index)
      ensures old(mode) == WordFilterMode && mode == WordPairsMode ==> PairsShows(wordFilter.word, wordFilter.stdIndex)
      ensures old(mode) == WordPairsMode && mode == WordFilterMode ==> FilterShows(wordPairs.word, wordPairs.stdIndex)
      ensures old(mode) == ConcordancerMode || mode != ConcordancerMode ==> concordancer.view.items == old(concordancer.view.items)
      ensures old(mode) == WordFilterMode || mode != WordFilterMode ==> wordFilter.view.items == old(wordFilter.view.items)
      ensures old(mode) == WordPairsMode || mode != WordPairsMode ==> wordPairs.view.items == old(wordPairs.view.items)
      ensures old(mode) != ConcordancerMode && mode != ConcordancerMode ==> unchanged(concordancer, concordancer.view)
      ensures old(mode) != WordFilterMode && mode != WordFilterMode ==> unchanged(wordFilter, wordFilter.view)
      ensures old(mode) != WordPairsMode && mode != WordPairsMode ==> unchanged(wordPairs, wordPairs.view)
      ensures old(mode) != WordRankMode ==> unchanged(wordRank.view)
    {
      if status != Running {
        return;
      }
      if key == CtrlC {
        status := Exited;
        return;
      }
      match mode {
        case WordRankMode => OnWordRank(key);
        case ConcordancerMode => OnConcordancer(key);
        case WordFilterMode => OnWordFilter(key);
        case WordPairsMode => OnWordPairs(key);
      }
    }

    /** `case MODE.WORDRANK`: `wordRank.data(encodedData, [concordancer, wordFilter])`. */
    method OnWordRank(key: Key)
      requires Valid() && status == Running && mode == WordRankMode && key != CtrlC
      modifies this`mode, this`status, wordRank.view, concordancer, concordancer.view, wordFilter, wordFilter.view
      ensures Valid()
      ensures (status, mode) == Transition(Running, WordRankMode, old(wordRank.view.State()), old(wordRank.view.len), key)
      ensures wordRank.view.State() == Press(old(wordRank.view.State()), old(wordRank.view.len), key).0
      ensures mode != WordRankMode ==> !CursorOf(mode).isNum
      ensures mode == ConcordancerMode ==>
        OnEntry() && ConcordanceShows(wordRank.view.items[wordRank.view.index].word, wordRank.view.index)
      ensures mode == WordFilterMode ==>
        OnEntry() && FilterShows(wordRank.view.items[wordRank.view.index].word, wordRank.view.index)
      ensures mode != ConcordancerMode ==> unchanged(concordancer, concordancer.view)
      ensures mode != WordFilterMode ==> unchanged(wordFilter, wordFilter.view)
    {
      TransitionCases(WordRankMode, wordRank.view.State(), wordRank.view.len, key);
      var routed := wordRank.view.Data(key);
      if routed == Quit {
        status := Exited;
      } else if routed == Unhandled {
        RouteFromWordRank(key);
      }
    }

    /** A key `wordRank`'s cursor left alone: its `stringData`, then the mode switch. */
    method RouteFromWordRank(key: Key)
      requires Valid() && status == Running && mode == WordRankMode && !wordRank.view.isNum
      modifies this`mode, this`status, concordancer, concordancer.view, wordFilter, wordFilter.view
      ensures Valid()
      ensures (status, mode) == match Edge(WordRankMode, key)
        case None => (Running, WordRankMode)
        case Some(next) => if !(0 <= wordRank.view.index < wordRank.view.len) then (Crashed, WordRankMode) else (Running, next)
      ensures mode != WordRankMode ==> !CursorOf(mode).isNum
      ensures mode == ConcordancerMode ==>
        OnEntry() && ConcordanceShows(wordRank.view.items[wordRank.view.index].word, wordRank.view.index)
      ensures mode == WordFilterMode ==>
        OnEntry() && FilterShows(wordRank.view.items[wordRank.view.index].word, wordRank.view.index)
      ensures mode != ConcordancerMode ==> unchanged(concordancer, concordancer.view)
      ensures mode != WordFilterMode ==> unchanged(wordFilter, wordFilter.view)
    {
      var next := wordRank.StringData(key, concordancer, wordFilter);
      Apply(next);
    }

    /** `case MODE.CONCORDANCER`: `concordancer.data(encodedData, [wordRank])`. */
    method OnConcordancer(key: Key)
      requires Valid() && status == Running && mode == ConcordancerMode && key != CtrlC
      modifies this`mode, this`status, concordancer.view
      ensures Valid()
      ensures (status, mode) == Transition(Running, ConcordancerMode, old(concordancer.view.State()), old(concordancer.view.len), key)
      ensures concordancer.view.State() == Press(old(concordancer.view.State()), old(concordancer.view.len), key).0
      ensures concordancer.view.items == old(concordancer.view.items)
      ensures mode != ConcordancerMode ==> !CursorOf(mode).isNum
    {
      TransitionCases(ConcordancerMode, concordancer.view.State(), concordancer.view.len, key);
      var routed := concordancer.view.Data(key);
      if routed == Quit {
        status := Exited;
      } else if routed == Unhandled {
        RouteFromConcordancer(key);
      }
    }

    /** A key `concordancer`'s cursor left alone: its `stringData`, then the mode switch. */
    method RouteFromConcordancer(key: Key)
      requires Valid() && status == Running && mode == ConcordancerMode && !concordancer.view.isNum
      modifies this`mode, this`status
      ensures Valid()
      ensures (status, mode) == match Edge(ConcordancerMode, key)
        case None => (Running, ConcordancerMode)
        case Some(next) => (Running, next)
      ensures mode != ConcordancerMode ==> !CursorOf(mode).isNum
    {
      var next := concordancer.StringData(key, wordRank);
      Apply(next);
    }

    /** `case MODE.WORDFILTER`: `wordFilter.data(encodedData, [wordRank, wordPairs])`. */
    method OnWordFilter(key: Key)
      requires Valid() && status == Running && mode == WordFilterMode && key != CtrlC
      modifies this`mode, this`status, wordFilter.view, wordPairs, wordPairs.view
      ensures Valid()
      ensures (status, mode) == Transition(Running, WordFilterMode, old(wordFilter.view.State()), old(wordFilter.view.len), key)
      ensures wordFilter.view.State() == Press(old(wordFilter.view.State()), old(wordFilter.view.len), key).0
      ensures wordFilter.view.items == old(wordFilter.view.items)
      ensures mode != WordFilterMode ==> !CursorOf(mode).isNum
      ensures mode == WordPairsMode ==> PairsShows(wordFilter.word, wordFilter.stdIndex)
      ensures mode != WordPairsMode ==> unchanged(wordPairs, wordPairs.view)
    {
      TransitionCases(WordFilterMode, wordFilter.view.State(), wordFilter.view.len, key);
      var routed := wordFilter.view.Data(key);
      if routed == Quit {
        status := Exited;
      } else if routed == Unhandled {
        RouteFromWordFilter(key);
      }
    }

    /** A key `wordFilter`'s cursor left alone: its `stringData`, then the mode switch. */
    method RouteFromWordFilter(key: Key)
      requires Valid() && status == Running && mode == WordFilterMode && !wordFilter.view.isNum
      modifies this`mode, this`status, wordPairs, wordPairs.view
      ensures Valid()
      ensures (status, mode) == match Edge(WordFilterMode, key)
        case None => (Running, WordFilterMode)
        case Some(next) => (Running, next)
      ensures mode != WordFilterMode ==> !CursorOf(mode).isNum
      ensures mode == WordPairsMode ==> PairsShows(wordFilter.word, wordFilter.stdIndex)
      ensures mode != WordPairsMode ==> unchanged(wordPairs, wordPairs.view)
    {
      var next := wordFilter.StringData(key, wordRank, wordPairs);
      Apply(next);
    }

    /** `case MODE.WORDPAIRS`: `wordPairs.data(encodedData, [wordRank, wordFilter])`. */
    method OnWordPairs(key: Key)
      requires Valid() && status == Running && mode == WordPairsMode && key != CtrlC
      modifies this`mode, this`status, wordPairs.view, wordFilter, wordFilter.view
      ensures Valid()
      ensures (status, mode) == Transition(Running, WordPairsMode, old(wordPairs.view.State()), old(wordPairs.view.len), key)
      ensures wordPairs.view.State() == Press(old(wordPairs.view.State()), old(wordPairs.view.len), key).0
      ensures wordPairs.view.items == old(wordPairs.view.items)
      ensures mode != WordPairsMode ==> !CursorOf(mode).isNum
      ensures mode == WordFilterMode ==> FilterShows(wordPairs.word, wordPairs.stdIndex)
      ensures mode != WordFilterMode ==> unchanged(wordFilter, wordFilter.view)
    {
      TransitionCases(WordPairsMode, wordPairs.view.State(), wordPairs.view.len, key);
      var routed := wordPairs.view.Data(key);
      if routed == Quit {
        status := Exited;
      } else if routed == Unhandled {
        RouteFromWordPairs(key);
      }
    }

    /** A key `wordPairs`'s cursor left alone: its `stringData`, then the mode switch. */
    method RouteFromWordPairs(key: Key)
      requires Valid() && status == Running && mode == WordPairsMode && !wordPairs.view.isNum
      modifies this`mode, this`status, wordFilter, wordFilter.view
      ensures Valid()
      ensures (status, mode) == match Edge(WordPairsMode, key)
        case None => (Running, WordPairsMode)
        case Some(next) => (Running, next)
      ensures mode != WordPairsMode ==> !CursorOf(mode).isNum
      ensures mode == WordFilterMode ==> FilterShows(wordPairs.word, wordPairs.stdIndex)
      ensures mode != WordFilterMode ==> unchanged(wordFilter, wordFilter.view)
    {
      var next := wordPairs.StringData(key, wordRank, wordFilter);
      Apply(next);
    }

    /** `if (tmpMode) mode = tmpMode`; an exception out of `stringData` stops the program. */
    method Apply(next: Outcome)
      modifies this`mode, this`status
      ensures next.Goto? ==> mode == next.mode && status == old(status)
      ensures next == Fault ==> status == Crashed && mode == old(mode)
      ensures next == Stay ==> mode == old(mode) && status == old(status)
    {
      match next {
        case Goto(m) => mode := m;
        case Fault => status := Crashed;
        case Stay =>
      }
    }

    /** Opening the concordances from the ranking and leaving them with ESCAPE returns to the same ranking entry. */
    method RightThenEscape()
      requires Valid() && status == Running && mode == WordRankMode
      requires !wordRank.view.isNum && 0 <= wordRank.view.index < wordRank.view.len
      modifies Repr()
      ensures Valid() && status == Running && mode == WordRankMode
      ensures wordRank.view.State() == old(wordRank.view.State())
    {
      Step(Right);
      Step(Escape);
    }
  }
}
