/**
 * Frequency counting and the stable descending sort shared by the word
 * ranking (`rankWords`) and the pair counter (`WordPairs.sort`): a JavaScript
 * `Map` filled in `forEach` order, first-occurrence deduplication, and
 * `Array.prototype.sort` with the comparator `b - a` on the counts (a stable
 * sort, as ECMAScript 2019 requires).
 */
module Ranking {

  /** A string with its number of occurrences: a rank entry or a pair window. */
  datatype Counted = Counted(text: string, count: nat)

  /** Number of occurrences of `x` in `s`. */
  function Count(s: seq<string>, x: string): nat {
    if s == [] then 0 else Count(s[..|s| - 1], x) + (if s[|s| - 1] == x then 1 else 0)
  }

  /** The distinct elements of `s`, in first-occurrence order (`filter((el, i, arr) => arr.indexOf(el) === i)`). */
  function Distinct(s: seq<string>): (r: seq<string>)
    ensures forall x :: x in r <==> x in s
    ensures NoDuplicates(r)
  {
    if s == [] then []
    else if s[|s| - 1] in s[..|s| - 1] then Distinct(s[..|s| - 1])
    else Distinct(s[..|s| - 1]) + [s[|s| - 1]]
  }

  predicate NoDuplicates(s: seq<string>) {
    forall i, j :: 0 <= i < j < |s| ==> s[i] != s[j]
  }

  /** Position of the first occurrence (`indexOf`). */
  function IndexOf(s: seq<string>, x: string): (i: nat)
    requires x in s
    ensures i < |s| && s[i] == x
    ensures forall k :: 0 <= k < i ==> s[k] != x
  {
    if s[0] == x then 0 else 1 + IndexOf(s[1..], x)
  }

  lemma {:induction false} CountAbsent(s: seq<string>, x: string)
    ensures Count(s, x) == 0 <==> x !in s
  {
    if s != [] {
      CountAbsent(s[..|s| - 1], x);
      assert s == s[..|s| - 1] + [s[|s| - 1]];
    }
  }

  lemma {:induction false} CountOnce(s: seq<string>, x: string)
    requires NoDuplicates(s) && x in s
    ensures Count(s, x) == 1
  {
    var p := s[..|s| - 1];
    if s[|s| - 1] == x {
      assert x !in p;
      CountAbsent(p, x);
    } else {
      assert x in p;
      CountOnce(p, x);
    }
  }

  lemma {:induction false} IndexOfAppend(s: seq<string>, x: string, y: string)
    requires y in s
    ensures IndexOf(s + [x], y) == IndexOf(s, y)
  {
    if s[0] != y {
      assert (s + [x])[1..] == s[1..] + [x];
      IndexOfAppend(s[1..], x, y);
    }
  }

  /** `Distinct` lists the elements in the order of their first occurrences. */
  lemma {:induction false} DistinctInFirstOccurrenceOrder(s: seq<string>, i: nat, j: nat)
    requires i < j < |Distinct(s)|
    ensures IndexOf(s, Distinct(s)[i]) < IndexOf(s, Distinct(s)[j])
  {
    var p := s[..|s| - 1];
    var x := s[|s| - 1];
    assert s == p + [x];
    var d := Distinct(s);
    if x in p {
      DistinctInFirstOccurrenceOrder(p, i, j);
      IndexOfAppend(p, x, d[i]);
      IndexOfAppend(p, x, d[j]);
    } else if j < |Distinct(p)| {
      DistinctInFirstOccurrenceOrder(p, i, j);
      IndexOfAppend(p, x, d[i]);
      IndexOfAppend(p, x, d[j]);
    } else {
      assert d[j] == x;
      assert d[i] in p;
      IndexOfAppend(p, x, d[i]);
      assert IndexOf(s, x) == |p|;
    }
  }

  /**
   * The `Map` of `rankWords` and `WordPairs.sort`: one pass over `words` in
   * `forEach` order, adding a key with count 1 the first time it is seen and
   * incrementing it afterwards. `keys` is the map's insertion order.
   */
  method CountOccurrences(words: seq<string>) returns (keys: seq<string>, counts: map<string, nat>)
    ensures keys == Distinct(words)
    ensures forall w :: w in counts <==> w in words
    ensures forall w :: w in counts ==> counts[w] == Count(words, w)
  {
    keys, counts := [], map[];
    ghost var seen: seq<string> := [];
    var i := 0;
    while i < |words|
      invariant 0 <= i <= |words| && seen == words[..i]
      invariant keys == Distinct(seen)
      invariant forall w :: w in counts <==> w in seen
      invariant forall w :: w in counts ==> counts[w] == Count(seen, w)
    {
      var w := words[i];
      CountSnoc(seen, w);
      DistinctSnoc(seen, w);
      if w in counts {
        counts := counts[w := counts[w] + 1];
      } else {
        CountAbsent(seen, w);
        counts := counts[w := 1];
        keys := keys + [w];
      }
      seen := seen + [w];
      assert seen == words[..i + 1];
      i := i + 1;
    }
    assert seen == words;
  }

  /** One more string adds one to its own count and to no other. */
  lemma CountSnoc(s: seq<string>, w: string)
    ensures forall x :: Count(s + [w], x) == Count(s, x) + (if w == x then 1 else 0)
  {
    assert (s + [w])[..|s|] == s;
  }

  /** One more string is a new distinct element exactly when it has not occurred yet. */
  lemma DistinctSnoc(s: seq<string>, w: string)
    ensures Distinct(s + [w]) == if w in s then Distinct(s) else Distinct(s) + [w]
  {
    assert (s + [w])[..|s|] == s;
  }

  /** Each string of `ws` paired with its number of occurrences in `s`. */
  function Attach(ws: seq<string>, s: seq<string>): (r: seq<Counted>)
    ensures |r| == |ws|
    ensures forall i :: 0 <= i < |ws| ==> r[i] == Counted(ws[i], Count(s, ws[i]))
  {
    if ws == [] then [] else Attach(ws[..|ws| - 1], s) + [Counted(ws[|ws| - 1], Count(s, ws[|ws| - 1]))]
  }

  /** The map's entries in insertion order: each distinct string with its count. */
  function Tally(s: seq<string>): seq<Counted> {
    Attach(Distinct(s), s)
  }

  function SumCounts(r: seq<Counted>): nat {
    if r == [] then 0 else SumCounts(r[..|r| - 1]) + r[|r| - 1].count
  }

  /** Sum over `ws` of the number of occurrences in `s`. */
  function SumOver(ws: seq<string>, s: seq<string>): nat {
    if ws == [] then 0 else SumOver(ws[..|ws| - 1], s) + Count(s, ws[|ws| - 1])
  }

  lemma {:induction false} SumOverAppend(ws: seq<string>, s: seq<string>, x: string)
    ensures SumOver(ws, s + [x]) == SumOver(ws, s) + Count(ws, x)
  {
    if ws != [] {
      var w := ws[|ws| - 1];
      SumOverAppend(ws[..|ws| - 1], s, x);
      assert (s + [x])[..|s + [x]| - 1] == s;
    }
  }

  lemma {:induction false} SumOverDistinct(s: seq<string>)
    ensures SumOver(Distinct(s), s) == |s|
  {
    if s != [] {
      var p := s[..|s| - 1];
      var x := s[|s| - 1];
      assert s == p + [x];
      SumOverDistinct(p);
      SumOverAppend(Distinct(p), p, x);
      if x in p {
        CountOnce(Distinct(p), x);
      } else {
        CountAbsent(Distinct(p), x);
        CountAbsent(p, x);
        var d := Distinct(p) + [x];
        assert d[..|d| - 1] == Distinct(p);
      }
    }
  }

  lemma {:induction false} SumAttach(ws: seq<string>, s: seq<string>)
    ensures SumCounts(Attach(ws, s)) == SumOver(ws, s)
  {
    if ws != [] {
      SumAttach(ws[..|ws| - 1], s);
      var r := Attach(ws, s);
      assert r[..|r| - 1] == Attach(ws[..|ws| - 1], s);
    }
  }

  // ---- the stable descending sort ----

  predicate NonIncreasing(r: seq<Counted>) {
    forall i, j :: 0 <= i < j < |r| ==> r[i].count >= r[j].count
  }

  /** Places `x` after every element of the (sorted) `t` whose count is at least `x`'s. */
  function Insert(x: Counted, t: seq<Counted>): seq<Counted> {
    if t == [] then [x]
    else if t[0].count >= x.count then [t[0]] + Insert(x, t[1..])
    else [x] + t
  }

  /** Insertion sort, by non-increasing count, inserting the elements in input order. */
  function SortDesc(s: seq<Counted>): seq<Counted> {
    if s == [] then [] else Insert(s[|s| - 1], SortDesc(s[..|s| - 1]))
  }

  /** The subsequence of the elements whose count is `k`. */
  function WithCount(s: seq<Counted>, k: nat): seq<Counted> {
    if s == [] then [] else (if s[0].count == k then [s[0]] else []) + WithCount(s[1..], k)
  }

  lemma {:induction false} InsertSorted(x: Counted, t: seq<Counted>)
    requires NonIncreasing(t)
    ensures NonIncreasing(Insert(x, t))
  {
    if t != [] && t[0].count >= x.count {
      InsertSorted(x, t[1..]);
      InsertMembers(x, t[1..]);
      var r := Insert(x, t);
      assert r == [t[0]] + Insert(x, t[1..]);
      forall j | 0 < j < |r| ensures r[0].count >= r[j].count {
        assert r[j] in Insert(x, t[1..]);
      }
    }
  }

  lemma {:induction false} InsertFacts(x: Counted, t: seq<Counted>)
    requires NonIncreasing(t)
    ensures NonIncreasing(Insert(x, t))
    ensures |Insert(x, t)| == |t| + 1
    ensures multiset(Insert(x, t)) == multiset(t) + multiset{x}
    ensures forall y :: y in Insert(x, t) <==> y == x || y in t
    ensures SumCounts(Insert(x, t)) == SumCounts(t) + x.count
  {
    InsertSorted(x, t);
    InsertMembers(x, t);
    InsertCounts(x, t);
  }

  lemma {:induction false} InsertCounts(x: Counted, t: seq<Counted>)
    ensures |Insert(x, t)| == |t| + 1
    ensures multiset(Insert(x, t)) == multiset(t) + multiset{x}
    ensures SumCounts(Insert(x, t)) == SumCounts(t) + x.count
  {
    if t != [] && t[0].count >= x.count {
      InsertCounts(x, t[1..]);
      assert t == [t[0]] + t[1..];
      SumCountsCons(t[0], Insert(x, t[1..]));
      SumCountsCons(t[0], t[1..]);
    } else if t != [] {
      SumCountsCons(x, t);
    }
  }

  lemma {:induction false} SumCountsCons(x: Counted, t: seq<Counted>)
    ensures SumCounts([x] + t) == x.count + SumCounts(t)
    decreases |t|
  {
    if t != [] {
      var r := [x] + t;
      assert r[..|r| - 1] == [x] + t[..|t| - 1];
      SumCountsCons(x, t[..|t| - 1]);
    }
  }

  lemma {:induction false} WithCountConcat(a: seq<Counted>, b: seq<Counted>, k: nat)
    ensures WithCount(a + b, k) == WithCount(a, k) + WithCount(b, k)
  {
    if a != [] {
      assert (a + b)[0] == a[0];
      assert (a + b)[1..] == a[1..] + b;
      WithCountConcat(a[1..], b, k);
    } else {
      assert a + b == b;
    }
  }

  lemma {:induction false} WithCountBelow(t: seq<Counted>, k: nat)
    requires forall y :: y in t ==> y.count < k
    ensures WithCount(t, k) == []
  {
    if t != [] {
      WithCountBelow(t[1..], k);
    }
  }

  lemma {:induction false} InsertWithCount(x: Counted, t: seq<Counted>, k: nat)
    requires NonIncreasing(t)
    ensures WithCount(Insert(x, t), k) == WithCount(t, k) + (if x.count == k then [x] else [])
  {
    var r := Insert(x, t);
    var tail := if x.count == k then [x] else [];
    if t == [] {
    } else if t[0].count >= x.count {
      var head := if t[0].count == k then [t[0]] else [];
      assert NonIncreasing(t[1..]) by {
        forall i, j | 0 <= i < j < |t[1..]| ensures t[1..][i].count >= t[1..][j].count {
          assert t[1..][i] == t[i + 1] && t[1..][j] == t[j + 1];
        }
      }
      InsertWithCount(x, t[1..], k);
      assert r[0] == t[0] && r[1..] == Insert(x, t[1..]);
      assert WithCount(r, k) == head + WithCount(Insert(x, t[1..]), k);
      assert WithCount(t, k) == head + WithCount(t[1..], k);
      assert WithCount(r, k) == head + (WithCount(t[1..], k) + tail);
    } else {
      assert r[0] == x && r[1..] == t;
      assert WithCount(r, k) == tail + WithCount(t, k);
      if x.count == k {
        WithCountBelow(t, k);
      }
    }
  }

  lemma {:induction false} SortDescFacts(s: seq<Counted>)
    ensures NonIncreasing(SortDesc(s))
    ensures |SortDesc(s)| == |s|
    ensures multiset(SortDesc(s)) == multiset(s)
    ensures forall y :: y in SortDesc(s) <==> y in s
    ensures SumCounts(SortDesc(s)) == SumCounts(s)
  {
    if s != [] {
      var p := s[..|s| - 1];
      assert s == p + [s[|s| - 1]];
      SortDescFacts(p);
      InsertFacts(s[|s| - 1], SortDesc(p));
    }
  }

  /** Stability: for every count, the elements with that count keep their input order. */
  lemma {:induction false} SortDescStable(s: seq<Counted>, k: nat)
    ensures WithCount(SortDesc(s), k) == WithCount(s, k)
  {
    if s != [] {
      var p := s[..|s| - 1];
      var x := s[|s| - 1];
      assert s == p + [x];
      SortDescStable(p, k);
      SortDescFacts(p);
      InsertWithCount(x, SortDesc(p), k);
      WithCountConcat(p, [x], k);
    }
  }

  /** Sorted tally: the entries of the counting map in sorted order. */
  function Ranked(s: seq<string>): seq<Counted> {
    SortDesc(Tally(s))
  }

  lemma {:induction false} SortKeepsDistinctTexts(s: seq<Counted>)
    requires forall i, j :: 0 <= i < j < |s| ==> s[i].text != s[j].text
    ensures forall i, j :: 0 <= i < j < |SortDesc(s)| ==> SortDesc(s)[i].text != SortDesc(s)[j].text
  {
    if s != [] {
      var p := s[..|s| - 1];
      var x := s[|s| - 1];
      SortKeepsDistinctTexts(p);
      SortDescFacts(p);
      var t := SortDesc(p);
      InsertFacts(x, t);
      assert forall y :: y in t ==> y.text != x.text;
      InsertDistinctTexts(x, t);
    }
  }

  lemma {:induction false} InsertDistinctTexts(x: Counted, t: seq<Counted>)
    requires forall i, j :: 0 <= i < j < |t| ==> t[i].text != t[j].text
    requires forall y :: y in t ==> y.text != x.text
    ensures forall i, j :: 0 <= i < j < |Insert(x, t)| ==> Insert(x, t)[i].text != Insert(x, t)[j].text
  {
    if t != [] && t[0].count >= x.count {
      InsertDistinctTexts(x, t[1..]);
      var r := Insert(x, t);
      assert r == [t[0]] + Insert(x, t[1..]);
      InsertMembers(x, t[1..]);
      forall j | 0 < j < |r| ensures r[0].text != r[j].text {
        assert r[j] in Insert(x, t[1..]);
      }
    }
  }

  lemma {:induction false} InsertMembers(x: Counted, t: seq<Counted>)
    ensures forall y :: y in Insert(x, t) <==> y == x || y in t
  {
    if t != [] && t[0].count >= x.count {
      InsertMembers(x, t[1..]);
      assert t == [t[0]] + t[1..];
    }
  }

  lemma TallyFacts(s: seq<string>)
    ensures forall e :: e in Tally(s) ==> e.text in s && e.count == Count(s, e.text) && e.count >= 1
    ensures forall w :: w in s ==> exists e :: e in Tally(s) && e.text == w
    ensures forall i, j :: 0 <= i < j < |Tally(s)| ==> Tally(s)[i].text != Tally(s)[j].text
    ensures SumCounts(Tally(s)) == |s|
  {
    var t := Tally(s);
    var d := Distinct(s);
    SumAttach(d, s);
    SumOverDistinct(s);
    forall e | e in t ensures e.text in s && e.count == Count(s, e.text) && e.count >= 1 {
      CountAbsent(s, e.text);
    }
    forall w | w in s ensures exists e :: e in t && e.text == w {
      var i :| 0 <= i < |d| && d[i] == w;
      assert t[i] in t;
    }
  }

  /**
   * What the counting map, deduplicated and sorted, lists: every distinct
   * string exactly once, with its number of occurrences; counts never
   * increase down the list; they sum to the number of strings counted.
   */
  lemma RankedFacts(s: seq<string>)
    ensures |Ranked(s)| == |Distinct(s)|
    ensures forall e :: e in Ranked(s) ==> e.text in s && e.count == Count(s, e.text) && e.count >= 1
    ensures forall w :: w in s ==> exists e :: e in Ranked(s) && e.text == w
    ensures forall i, j :: 0 <= i < j < |Ranked(s)| ==> Ranked(s)[i].text != Ranked(s)[j].text
    ensures NonIncreasing(Ranked(s))
    ensures SumCounts(Ranked(s)) == |s|
  {
    TallyFacts(s);
    SortDescFacts(Tally(s));
    SortKeepsDistinctTexts(Tally(s));
  }

  /** Ties keep first-occurrence order: the entries with any one count are, in order, those of the tally. */
  lemma RankedTies(s: seq<string>, k: nat)
    ensures WithCount(Ranked(s), k) == WithCount(Tally(s), k)
  {
    SortDescStable(Tally(s), k);
  }
}
