/**
 * `Concordancer.filter` (src/corpus.ts): the corpus lines in which the
 * selected word occurs between two spaces, case-insensitively.
 *
 * The source builds the regular expression with the flags `ig` and calls its
 * `test` on line after line. A global regular expression keeps `lastIndex`
 * between calls: after a match the next search starts where that match
 * ended, on the NEXT line. `GlobalFilter` models that as written; a line
 * whose only occurrence lies before the previous match's end is dropped
 * (`ResumedSearchDropsLine`). The concordance page uses `GlobalFilter`, as
 * the program does; `ContainsFilter` is the intended filter, and
 * `SurvivorsWithinContains` relates the two.
 */
module Concordance {
  import opened Wrappers
  import opened Text

  /** Equal under the `i` flag (case folding restricted to the ASCII letters). */
  predicate SameIgnoringCase(a: char, b: char) {
    Lower(a) == Lower(b)
  }

  /** `pat` occurs in `line` at position `p`. */
  predicate MatchesAt(line: string, pat: string, p: nat) {
    p + |pat| <= |line| && forall k :: 0 <= k < |pat| ==> SameIgnoringCase(line[p + k], pat[k])
  }

  predicate Contains(line: string, pat: string) {
    exists p: nat :: p <= |line| && MatchesAt(line, pat, p)
  }

  /** The regular expression built from the escaped word, read as a literal: the word between two spaces. */
  function Pattern(word: string): (pat: string)
    ensures |pat| == |word| + 2 && pat[0] == ' ' && pat[|pat| - 1] == ' ' && pat[1..|pat| - 1] == word
  {
    " " + word + " "
  }

  /** The leftmost occurrence of `pat` at or after `from`. */
  function FirstMatch(line: string, pat: string, from: nat): (r: Option<nat>)
    ensures r.Some? ==> from <= r.value && MatchesAt(line, pat, r.value)
    ensures r.Some? ==> forall p: nat :: from <= p < r.value ==> !MatchesAt(line, pat, p)
    ensures r.None? ==> forall p: nat :: from <= p ==> !MatchesAt(line, pat, p)
    decreases |line| - from
  {
    if from + |pat| > |line| then None
    else if MatchesAt(line, pat, from) then Some(from)
    else FirstMatch(line, pat, from + 1)
  }

  /**
   * `regex.test(line)` on a global regular expression whose `lastIndex` is
   * `lastIndex`: whether a match starts at or after it, and the new
   * `lastIndex` (the end of that match, or 0 when there is none).
   */
  function Test(line: string, pat: string, lastIndex: nat): (r: (bool, nat))
    ensures r.0 <==> exists p: nat :: lastIndex <= p && MatchesAt(line, pat, p)
    ensures !r.0 ==> r.1 == 0
    ensures r.0 ==> r.1 >= lastIndex + |pat| && MatchesAt(line, pat, r.1 - |pat|)
    ensures r.0 ==> forall p: nat :: lastIndex <= p < r.1 - |pat| ==> !MatchesAt(line, pat, p)
  {
    match FirstMatch(line, pat, lastIndex)
    case None => (false, 0)
    case Some(p) => (true, p + |pat|)
  }

  /** The lines kept by `lines.filter((line) => regex.test(line))` when the first test starts at `lastIndex`. */
  function Survivors(lines: seq<string>, pat: string, lastIndex: nat): (r: seq<string>)
    ensures forall l :: l in r ==> l in lines && Contains(l, pat)
    ensures IsSubsequence(r, lines)
    decreases |lines|
  {
    if lines == [] then []
    else
      var t := Test(lines[0], pat, lastIndex);
      var rest := Survivors(lines[1..], pat, t.1);
      if t.0 then
        assert MatchesAt(lines[0], pat, t.1 - |pat|);
        assert ([lines[0]] + rest)[1..] == rest;
        [lines[0]] + rest
      else rest
  }

  /** One line of the filter: `test` runs on it, then on the rest from the new `lastIndex`. */
  lemma SurvivorsStep(lines: seq<string>, pat: string, lastIndex: nat)
    requires lines != []
    ensures var t := Test(lines[0], pat, lastIndex);
      Survivors(lines, pat, lastIndex) == (if t.0 then [lines[0]] else []) + Survivors(lines[1..], pat, t.1)
  {
  }

  /** `filter(word)` as written: one regular expression, its `test` run on every line in turn. */
  method GlobalFilter(allItems: seq<string>, word: string) returns (items: seq<string>)
    ensures items == Survivors(allItems, Pattern(word), 0)
  {
    var pat := Pattern(word);
    var lastIndex: nat := 0;
    items := [];
    var i := 0;
    while i < |allItems|
      invariant 0 <= i <= |allItems|
      invariant items + Survivors(allItems[i..], pat, lastIndex) == Survivors(allItems, pat, 0)
    {
      var t := Test(allItems[i], pat, lastIndex);
      SurvivorsStep(allItems[i..], pat, lastIndex);
      assert allItems[i..][0] == allItems[i] && allItems[i..][1..] == allItems[i + 1..];
      lastIndex := t.1;
      if t.0 {
        items := items + [allItems[i]];
      }
      i := i + 1;
    }
  }

  /** `a` is `b` with some elements left out, the rest in their order. */
  predicate IsSubsequence(a: seq<string>, b: seq<string>)
    decreases |b|
  {
    a == [] || (b != [] && ((a[0] == b[0] && IsSubsequence(a[1..], b[1..])) || IsSubsequence(a, b[1..])))
  }

  /** The intended filter: every line containing the pattern, in corpus order. */
  function ContainsFilter(lines: seq<string>, pat: string): (r: seq<string>)
    ensures forall l :: l in r <==> l in lines && Contains(l, pat)
    ensures forall l :: multiset(r)[l] == if Contains(l, pat) then multiset(lines)[l] else 0
    ensures IsSubsequence(r, lines)
    ensures |r| <= |lines|
  {
    if lines == [] then []
    else
      var rest := ContainsFilter(lines[1..], pat);
      assert IsSubsequence(rest, lines) by {
        assert lines[1..] == lines[1..];
      }
      assert lines == [lines[0]] + lines[1..];
      if Contains(lines[0], pat) then [lines[0]] + rest else rest
  }

  /** The intended filter works line by line: it distributes over concatenation. */
  lemma {:induction false} ContainsFilterConcat(a: seq<string>, b: seq<string>, pat: string)
    ensures ContainsFilter(a + b, pat) == ContainsFilter(a, pat) + ContainsFilter(b, pat)
  {
    if a == [] {
      assert a + b == b;
    } else {
      assert (a + b)[0] == a[0];
      assert (a + b)[1..] == a[1..] + b;
      ContainsFilterConcat(a[1..], b, pat);
    }
  }

  /** One line is kept exactly when it holds the pattern. */
  lemma ContainsFilterSingle(l: string, pat: string)
    ensures ContainsFilter([l], pat) == if Contains(l, pat) then [l] else []
  {
    assert [l][1..] == [];
  }

  /** The filtered lines of `word`: the page shows these. */
  function ConcordanceOf(allItems: seq<string>, word: string): (items: seq<string>)
    ensures forall l :: l in items <==> l in allItems && Contains(l, Pattern(word))
    ensures forall l :: multiset(items)[l] == if Contains(l, Pattern(word)) then multiset(allItems)[l] else 0
    ensures IsSubsequence(items, allItems)
  {
    ContainsFilter(allItems, Pattern(word))
  }

  /**
   * The as-written filter never keeps a line the intended one drops, and keeps
   * corpus order: its result is a subsequence of the intended result.
   */
  lemma {:induction false} SurvivorsWithinContains(lines: seq<string>, pat: string, lastIndex: nat)
    ensures IsSubsequence(Survivors(lines, pat, lastIndex), ContainsFilter(lines, pat))
    decreases |lines|
  {
    if lines != [] {
      var l := lines[0];
      var t := Test(l, pat, lastIndex);
      var s' := Survivors(lines[1..], pat, t.1);
      var c' := ContainsFilter(lines[1..], pat);
      SurvivorsWithinContains(lines[1..], pat, t.1);
      if t.0 {
        assert Contains(l, pat);
        assert ContainsFilter(lines, pat) == [l] + c';
        assert Survivors(lines, pat, lastIndex) == [l] + s';
        assert ([l] + s')[1..] == s' && ([l] + c')[1..] == c';
      } else if Contains(l, pat) {
        assert ContainsFilter(lines, pat) == [l] + c';
        assert Survivors(lines, pat, lastIndex) == s';
        assert ([l] + c')[1..] == c';
      } else {
        assert ContainsFilter(lines, pat) == c';
        assert Survivors(lines, pat, lastIndex) == s';
      }
    }
  }

  /** The search state only lingers after a match: the first corpus line with the word is always kept. */
  lemma {:induction false} FirstOccurrenceKept(lines: seq<string>, pat: string)
    requires ContainsFilter(lines, pat) != []
    ensures Survivors(lines, pat, 0) != [] && Survivors(lines, pat, 0)[0] == ContainsFilter(lines, pat)[0]
    decreases |lines|
  {
    var l := lines[0];
    var t := Test(l, pat, 0);
    if Contains(l, pat) {
      var p: nat :| MatchesAt(l, pat, p);
      assert t.0;
    } else {
      assert !t.0 && t.1 == 0;
      assert ContainsFilter(lines, pat) == ContainsFilter(lines[1..], pat);
      FirstOccurrenceKept(lines[1..], pat);
    }
  }

  /** The pattern of `word` cannot match where no space begins it. */
  lemma NoSpaceNoMatch(line: string, word: string, q: nat)
    requires q < |line| && line[q] != ' '
    ensures !MatchesAt(line, Pattern(word), q)
  {
    assert Lower(line[q]) != Lower(' ');
  }

  /** The word between two spaces is found where it stands. */
  lemma MatchInside(pre: string, word: string, post: string)
    ensures MatchesAt(pre + Pattern(word) + post, Pattern(word), |pre|)
  {
    var line, pat := pre + Pattern(word) + post, Pattern(word);
    forall k | 0 <= k < |pat| ensures SameIgnoringCase(line[|pre| + k], pat[k]) {
      assert line[|pre| + k] == pat[k];
    }
  }

  /** In `"a cat ran"` the first match starts at 1 and ends at 6. */
  lemma FirstLineMatchEndsAtSix()
    ensures Test("a cat ran", Pattern("cat"), 0) == (true, 6)
  {
    var l1, pat := "a cat ran", Pattern("cat");
    NoSpaceNoMatch(l1, "cat", 0);
    assert l1 == "a" + pat + "ran";
    MatchInside("a", "cat", "ran");
    var r := FirstMatch(l1, pat, 0);
    assert r.Some? && r.value == 1;
  }

  /** Searching `"my cat ate"` from 6 finds nothing: the pattern no longer fits. */
  lemma SecondLineMissedFromSix()
    ensures Test("my cat ate", Pattern("cat"), 6) == (false, 0)
  {
    var l2, pat := "my cat ate", Pattern("cat");
    assert |l2| == 10 && |pat| == 5;
    assert FirstMatch(l2, pat, 6) == None;
  }

  lemma BothLinesContainWord()
    ensures Contains("a cat ran", Pattern("cat")) && Contains("my cat ate", Pattern("cat"))
  {
    assert "a cat ran" == "a" + Pattern("cat") + "ran";
    MatchInside("a", "cat", "ran");
    assert "my cat ate" == "my" + Pattern("cat") + "ate";
    MatchInside("my", "cat", "ate");
  }

  lemma SurvivorsOfTwo(l1: string, l2: string, pat: string, e: nat)
    requires Test(l1, pat, 0) == (true, e) && !Test(l2, pat, e).0
    ensures Survivors([l1, l2], pat, 0) == [l1]
  {
    var lines := [l1, l2];
    assert lines[1..] == [l2] && [l2][1..] == [];
    assert Survivors([l2], pat, e) == [] + Survivors([], pat, 0);
    assert Survivors(lines, pat, 0) == [l1] + Survivors([l2], pat, e);
  }

  lemma ContainsFilterOfTwo(l1: string, l2: string, pat: string)
    requires Contains(l1, pat) && Contains(l2, pat)
    ensures ContainsFilter([l1, l2], pat) == [l1, l2]
  {
    var lines := [l1, l2];
    assert lines[1..] == [l2] && lines[1..][1..] == [];
  }

  /**
   * The discrepancy: in `"a cat ran"` the match ends at 6, so the search in
   * `"my cat ate"` starts at 6 and misses the occurrence at 2; the intended
   * filter keeps both lines.
   */
  lemma ResumedSearchDropsLine()
    ensures Survivors(["a cat ran", "my cat ate"], Pattern("cat"), 0) == ["a cat ran"]
    ensures ContainsFilter(["a cat ran", "my cat ate"], Pattern("cat")) == ["a cat ran", "my cat ate"]
  {
    FirstLineMatchEndsAtSix();
    SecondLineMissedFromSix();
    SurvivorsOfTwo("a cat ran", "my cat ate", Pattern("cat"), 6);
    BothLinesContainWord();
    ContainsFilterOfTwo("a cat ran", "my cat ate", Pattern("cat"));
  }
}
