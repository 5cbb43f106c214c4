/**
 * `rankWords` (src/init/rank.ts): the word-frequency file the browser reads.
 * The text goes through a chain of regular-expression replacements (kept
 * opaque here, as the parameter `sanitize`), is split into lower-cased
 * tokens, counted in a `Map`, sorted stably by descending count, and printed
 * one `NNN "word"` line per distinct token, every count zero-padded to the
 * width of the largest.
 */
module RankWords {
  import opened Text
  import opened Ranking
  import RankFile

  /** `.filter(Boolean)` on strings: the empty pieces go, every other piece stays. */
  function NonEmptyOnly(ps: seq<string>): (r: seq<string>)
    ensures forall w :: w in r <==> w in ps && w != ""
  {
    if ps == [] then [] else (if ps[0] != "" then [ps[0]] else []) + NonEmptyOnly(ps[1..])
  }

  /** The filter works piece by piece, so the surviving pieces keep their order and repetitions. */
  lemma {:induction false} NonEmptyOnlyConcat(a: seq<string>, b: seq<string>)
    ensures NonEmptyOnly(a + b) == NonEmptyOnly(a) + NonEmptyOnly(b)
  {
    if a == [] {
      assert a + b == b;
    } else {
      assert (a + b)[0] == a[0];
      assert (a + b)[1..] == a[1..] + b;
      NonEmptyOnlyConcat(a[1..], b);
    }
  }

  /** A single piece survives exactly when it is not empty. */
  lemma NonEmptyOnlySingle(p: string)
    ensures NonEmptyOnly([p]) == if p != "" then [p] else []
  {
    assert [p][1..] == [];
  }

  function MapLower(ps: seq<string>): (r: seq<string>)
    ensures |r| == |ps|
    ensures forall i :: 0 <= i < |ps| ==> r[i] == LowerString(ps[i])
  {
    if ps == [] then [] else [LowerString(ps[0])] + MapLower(ps[1..])
  }

  /** `sanitized.split(/\s+/g).map((str) => str.toLowerCase()).filter((w) => w)` */
  function Words(sanitized: string): seq<string> {
    NonEmptyOnly(MapLower(SplitRuns(sanitized, IsWhitespace)))
  }

  predicate IsToken(w: string) {
    w != [] && forall k :: 0 <= k < |w| ==> !IsWhitespace(w[k]) && !IsUpperAscii(w[k])
  }

  /** Tokens are non-empty, hold no whitespace and no upper-case letter. */
  lemma WordsAreTokens(sanitized: string)
    ensures forall w :: w in Words(sanitized) ==> IsToken(w)
  {
    var pieces := SplitRuns(sanitized, IsWhitespace);
    var lowered := MapLower(pieces);
    forall w | w in Words(sanitized) ensures IsToken(w) {
      assert w in lowered;
      var i :| 0 <= i < |lowered| && lowered[i] == w;
      assert pieces[i] in pieces;
    }
  }

  /** `(sort[0]?.[1] || 0).toString().length`: digits of the first (largest) count, 1 when there is none. */
  function Width(r: seq<Counted>): nat {
    |Dec(if r == [] then 0 else r[0].count)|
  }

  /** `${amt.toString().padStart(max, "0")} "${word}"` */
  function FormatLine(e: Counted, w: nat): string {
    RankFile.RankLine(PadStart(Dec(e.count), w, '0'), e.text)
  }

  function FormatLines(r: seq<Counted>, w: nat): (lines: seq<string>)
    ensures |lines| == |r|
    ensures forall i :: 0 <= i < |r| ==> lines[i] == FormatLine(r[i], w)
  {
    if r == [] then [] else [FormatLine(r[0], w)] + FormatLines(r[1..], w)
  }

  /** The ranked text for a list of tokens. */
  function RankedText(words: seq<string>): string {
    var r := Ranked(words);
    Join(FormatLines(r, Width(r)), "\n")
  }

  /**
   * `rankWords(messagesTxt)`, with the replacement chain of lines 2-12 given
   * as `sanitize`. The counting map is the imperative part.
   */
  method RankWordsOf(messagesTxt: string, sanitize: string -> string) returns (rankedTxt: string)
    ensures rankedTxt == RankedText(Words(sanitize(messagesTxt)))
  {
    var sanitized := sanitize(messagesTxt);
    var words := Words(sanitized);
    var keys, counts := CountOccurrences(words);
    var entries := seq(|keys|, i requires 0 <= i < |keys| => Counted(keys[i], counts[keys[i]]));
    assert entries == Tally(words);
    var sorted := SortDesc(entries);
    var max := |Dec(if |sorted| > 0 then sorted[0].count else 0)|;
    rankedTxt := Join(FormatLines(sorted, max), "\n");
  }

  /** No token, no line: the output is the empty string. */
  lemma NoWordsNoText(words: seq<string>)
    requires words == []
    ensures RankedText(words) == ""
  {
    assert Tally(words) == [];
  }

  /**
   * The lines of the ranked text: line `i` is entry `i` of the sorted tally,
   * its count zero-padded to exactly the width of the first (largest) count,
   * and the padded numeral still denotes the count.
   */
  lemma RankedLines(words: seq<string>, i: nat)
    requires i < |Ranked(words)|
    ensures var r := Ranked(words);
      && FormatLines(r, Width(r))[i] == FormatLine(r[i], Width(r))
      && |PadStart(Dec(r[i].count), Width(r), '0')| == Width(r)
      && AllDigits(PadStart(Dec(r[i].count), Width(r), '0'))
      && Value(PadStart(Dec(r[i].count), Width(r), '0')) == r[i].count
  {
    var r := Ranked(words);
    RankedFacts(words);
    assert r[0].count >= r[i].count;
    DecLengthMonotone(r[i].count, r[0].count);
    PaddedNumeral(r[i].count, Width(r));
  }

  /** What `splitWordRank` recovers from one formatted entry. */
  function Parsed(e: Counted, w: nat): RankFile.RankEntry {
    RankFile.RankEntry(PadStart(Dec(e.count), w, '0'), e.text)
  }

  function ParsedAll(r: seq<Counted>, w: nat): (p: seq<RankFile.RankEntry>)
    ensures |p| == |r|
    ensures forall i :: 0 <= i < |r| ==> p[i] == Parsed(r[i], w)
  {
    if r == [] then [] else [Parsed(r[0], w)] + ParsedAll(r[1..], w)
  }

  lemma {:induction false} SplitFormatted(r: seq<Counted>, w: nat)
    requires forall e :: e in r ==> IsToken(e.text)
    ensures RankFile.SplitWordRank(FormatLines(r, w)) == ParsedAll(r, w)
  {
    if r != [] {
      var e := r[0];
      var c := PadStart(Dec(e.count), w, '0');
      PaddedNumeral(e.count, w);
      assert RankFile.NoLineTerminator(e.text) by {
        assert IsToken(e.text);
      }
      RankFile.MatchRankLineAccepts(c, e.text);
      RankFile.SplitWordRankSingle(FormatLine(e, w));
      SplitFormatted(r[1..], w);
      assert FormatLines(r, w) == [FormatLine(e, w)] + FormatLines(r[1..], w);
      RankFile.SplitWordRankConcat([FormatLine(e, w)], FormatLines(r[1..], w));
    }
  }

  lemma FormatLineHasNoBreak(e: Counted, w: nat)
    requires IsToken(e.text)
    ensures forall k :: 0 <= k < |FormatLine(e, w)| ==> FormatLine(e, w)[k] != '\n' && FormatLine(e, w)[k] != '\r'
  {
    var l := FormatLine(e, w);
    var c := PadStart(Dec(e.count), w, '0');
    PaddedNumeral(e.count, w);
    assert l == c + " \"" + e.text + "\"";
    forall k | 0 <= k < |l| ensures l[k] != '\n' && l[k] != '\r' {
      if k < |c| {
        assert l[k] == c[k];
      } else if k >= |c| + 2 && k < |l| - 1 {
        assert l[k] == e.text[k - |c| - 2];
      }
    }
  }

  lemma EmptyTextParsesToNothing()
    ensures RankFile.SplitWordRank(SplitLines("")) == []
  {
    assert SplitLines("") == [""] by {
      assert RunEnd("", 0, c => c != '\n') == 0;
    }
    assert RankFile.MatchRankLine("").None?;
    RankFile.SplitWordRankSingle("");
  }

  /**
   * Round trip with the browser: splitting the ranked text on `\r?\n` and
   * parsing it with `splitWordRank` gives back every entry, in order, as its
   * padded count and its word.
   */
  lemma RankTextRoundTrip(sanitized: string)
    ensures var r := Ranked(Words(sanitized));
      RankFile.SplitWordRank(SplitLines(RankedText(Words(sanitized)))) == ParsedAll(r, Width(r))
  {
    WordsAreTokens(sanitized);
    TokensRoundTrip(Words(sanitized));
  }

  lemma TokensRoundTrip(words: seq<string>)
    requires forall w :: w in words ==> IsToken(w)
    ensures var r := Ranked(words);
      RankFile.SplitWordRank(SplitLines(RankedText(words))) == ParsedAll(r, Width(r))
  {
    var r := Ranked(words);
    var w := Width(r);
    var lines := FormatLines(r, w);
    RankedTexts(words);
    if r == [] {
      EmptyTextParsesToNothing();
    } else {
      forall l, k | l in lines && 0 <= k < |l| ensures l[k] != '\n' && l[k] != '\r' {
        var i :| 0 <= i < |lines| && lines[i] == l;
        assert r[i] in r;
        FormatLineHasNoBreak(r[i], w);
      }
      SplitLinesJoin(lines);
      SplitFormatted(r, w);
    }
  }

  lemma RankedTexts(words: seq<string>)
    ensures forall e :: e in Ranked(words) ==> e.text in words
  {
    SortDescFacts(Tally(words));
  }
}
