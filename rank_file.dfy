/**
 * Parsing of the rank file (`splitWordRank` in src/corpus.ts): every line
 * matching `^(\d+) "(.+)"$` becomes a (count, word) pair; the count stays the
 * digit string that was matched, padding included.
 */
module RankFile {
  import opened Wrappers
  import opened Text

  /** One parsed rank line: the two capture groups of the line's regular expression. */
  datatype RankEntry = RankEntry(count: string, word: string)

  predicate NoLineTerminator(s: string) {
    forall i :: 0 <= i < |s| ==> !IsLineTerminator(s[i])
  }

  /** The text of a rank line with the given captures. */
  function RankLine(count: string, word: string): string {
    count + " \"" + word + "\""
  }

  /**
   * `/^(\d+) "(.+)"$/.exec(line)`: a run of digits, a space, a quote, at least
   * one character other than a line terminator, and a closing quote at the very
   * end. `.+` is greedy, so a word may itself hold quotes.
   */
  function MatchRankLine(line: string): (r: Option<RankEntry>)
    ensures r.Some? ==>
      && |r.value.count| >= 1 && AllDigits(r.value.count)
      && |r.value.word| >= 1 && NoLineTerminator(r.value.word)
      && line == RankLine(r.value.count, r.value.word)
  {
    var k := RunEnd(line, 0, IsDigit);
    if k >= 1 && k + 4 <= |line| && line[k] == ' ' && line[k + 1] == '"' && line[|line| - 1] == '"'
       && NoLineTerminator(line[k + 2..|line| - 1])
    then
      assert line == line[..k] + " \"" + line[k + 2..|line| - 1] + "\"";
      Some(RankEntry(line[..k], line[k + 2..|line| - 1]))
    else None
  }

  /** The converse: every line of that shape is matched, with exactly those captures. */
  lemma MatchRankLineAccepts(count: string, word: string)
    requires |count| >= 1 && AllDigits(count)
    requires |word| >= 1 && NoLineTerminator(word)
    ensures MatchRankLine(RankLine(count, word)) == Some(RankEntry(count, word))
  {
    var line := RankLine(count, word);
    var k := RunEnd(line, 0, IsDigit);
    assert line[|count|] == ' ';
    assert forall i :: 0 <= i < |count| ==> line[i] == count[i];
    assert k == |count|;
    assert line[..k] == count;
    assert line[k + 2..|line| - 1] == word;
  }

  /** `splitWordRank`: the matching lines, in their order, each mapped to its captures. */
  function SplitWordRank(lines: seq<string>): (r: seq<RankEntry>)
    ensures |r| <= |lines|
    ensures forall e :: e in r ==> exists l :: l in lines && MatchRankLine(l) == Some(e)
  {
    if lines == [] then []
    else
      var rest := SplitWordRank(lines[1..]);
      match MatchRankLine(lines[0])
      case Some(e) => [e] + rest
      case None => rest
  }

  /** `splitWordRank` works line by line: it distributes over concatenation. */
  lemma {:induction false} SplitWordRankConcat(a: seq<string>, b: seq<string>)
    ensures SplitWordRank(a + b) == SplitWordRank(a) + SplitWordRank(b)
  {
    if a == [] {
      assert a + b == b;
    } else {
      assert (a + b)[0] == a[0];
      assert (a + b)[1..] == a[1..] + b;
      SplitWordRankConcat(a[1..], b);
    }
  }

  /** A single line is kept, as its captures, exactly when it matches. */
  lemma SplitWordRankSingle(l: string)
    ensures SplitWordRank([l]) == if MatchRankLine(l).Some? then [MatchRankLine(l).value] else []
  {
    assert [l][1..] == [];
  }

  /** Example: `0007 "hello"` yields the count `0007` (kept as text) and the word `hello`. */
  lemma ParseExample()
    ensures SplitWordRank(["0007 \"hello\"", "garbage"]) == [RankEntry("0007", "hello")]
  {
    MatchRankLineAccepts("0007", "hello");
    assert RankLine("0007", "hello") == "0007 \"hello\"";
    var g := "garbage";
    assert RunEnd(g, 0, IsDigit) == 0;
    assert ["0007 \"hello\"", "garbage"][1..] == ["garbage"];
    assert ["garbage"][1..] == [];
  }
}
