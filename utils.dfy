/**
 * Helpers of the search prompt (src/_utils.ts): `wordClassToString` writes a
 * word's classes as an English list, and `searchWord` asks the fuzzy matcher
 * only for a non-empty input.
 */
module Utils {
  import opened Text

  /** `string | string[]`: a word's class, or its several classes. */
  datatype WordClass = Single(name: string) | Several(names: seq<string>)

  /** `smallMeta`: a dictionary entry's file id, headword and class. */
  datatype Meta = Meta(id: string, word: string, wordClass: WordClass)

  /** The English list: `a`, `a and b`, `a, b, and c`. */
  function English(parts: seq<string>): string {
    if |parts| <= 1 then Join(parts, "")
    else if |parts| == 2 then parts[0] + " and " + parts[1]
    else Join(parts[..|parts| - 1], ", ") + ", and " + parts[|parts| - 1]
  }

  /** What the loop appends after element `i` of `n`. */
  function After(i: nat, n: nat): string {
    (if i < n - 1 && n >= 3 then ", " else "") + (if i == n - 2 then (if n == 2 then " and " else "and ") else "")
  }

  /** The string after the first `i` turns of the loop. */
  function Built(parts: seq<string>, i: nat): string
    requires i <= |parts|
  {
    if i == 0 then "" else Built(parts, i - 1) + parts[i - 1] + After(i - 1, |parts|)
  }

  /** `wordClassToString(wordClass)` */
  method WordClassToString(wordClass: WordClass) returns (s: string)
    ensures wordClass.Single? ==> s == wordClass.name
    ensures wordClass.Several? ==> s == English(wordClass.names)
  {
    if wordClass.Single? {
      return wordClass.name;
    }
    var parts := wordClass.names;
    s := "";
    var i := 0;
    while i < |parts|
      invariant 0 <= i <= |parts|
      invariant s == Built(parts, i)
    {
      s := s + parts[i];
      if i < |parts| - 1 && |parts| >= 3 {
        s := s + ", ";
      }
      if i == |parts| - 2 {
        s := s + (if |parts| == 2 then " and " else "and ");
      }
      i := i + 1;
    }
    BuiltIsEnglish(parts);
  }

  /** Before the last two elements of a list of three or more, every element is followed by `, `. */
  lemma {:induction false} BuiltPrefix(parts: seq<string>, i: nat)
    requires |parts| >= 3 && 1 <= i <= |parts| - 2
    ensures Built(parts, i) == Join(parts[..i], ", ") + ", "
  {
    if i > 1 {
      BuiltPrefix(parts, i - 1);
      JoinSnoc(parts[..i - 1], parts[i - 1], ", ");
      assert parts[..i] == parts[..i - 1] + [parts[i - 1]];
    } else {
      assert parts[..1] == [parts[0]];
    }
  }

  lemma {:induction false} JoinSnoc(ps: seq<string>, x: string, sep: string)
    requires ps != []
    ensures Join(ps + [x], sep) == Join(ps, sep) + sep + x
    decreases |ps|
  {
    if |ps| == 1 {
      assert (ps + [x])[1..] == [x];
    } else {
      assert (ps + [x])[1..] == ps[1..] + [x];
      JoinSnoc(ps[1..], x, sep);
    }
  }

  lemma TakeOneMore(parts: seq<string>, k: nat)
    requires k < |parts|
    ensures parts[..k + 1] == parts[..k] + [parts[k]]
  {
  }

  /** The loop writes exactly the English list. */
  lemma BuiltIsEnglish(parts: seq<string>)
    ensures Built(parts, |parts|) == English(parts)
  {
    if |parts| == 2 {
      BuiltTwo(parts);
    } else if |parts| >= 3 {
      BuiltMany(parts);
    }
  }

  lemma BuiltTwo(parts: seq<string>)
    requires |parts| == 2
    ensures Built(parts, 2) == parts[0] + " and " + parts[1]
  {
    assert After(0, 2) == " and " && After(1, 2) == "";
    assert Built(parts, 1) == parts[0] + " and ";
  }

  lemma BuiltMany(parts: seq<string>)
    requires |parts| >= 3
    ensures Built(parts, |parts|) == Join(parts[..|parts| - 1], ", ") + ", and " + parts[|parts| - 1]
  {
    var k := |parts| - 2;
    BuiltLastTwo(parts);
    BuiltPrefix(parts, k);
    TakeOneMore(parts, k);
    JoinSnoc(parts[..k], parts[k], ", ");
  }

  /** The last two turns: `, and ` after the second to last element, nothing after the last. */
  lemma BuiltLastTwo(parts: seq<string>)
    requires |parts| >= 3
    ensures var k := |parts| - 2; Built(parts, k + 2) == Built(parts, k) + parts[k] + ", and " + parts[k + 1]
  {
    var n := |parts|;
    var k := n - 2;
    assert After(k, n) == ", and " && After(k + 1, n) == "";
    var b1 := Built(parts, k + 1);
    assert b1 + parts[k + 1] + "" == b1 + parts[k + 1];
  }

  /** The elements in order, each once, between the separators `, ` and the final `and`. */
  lemma EnglishShapes(a: string, b: string, c: string)
    ensures English([]) == "" && English([a]) == a
    ensures English([a, b]) == a + " and " + b
    ensures English([a, b, c]) == a + ", " + b + ", and " + c
  {
    assert [a, b, c][..2] == [a, b] && [a, b][1..] == [b];
    assert Join([a, b], ", ") == a + ", " + b;
  }

  /** `searchWord(input, allMeta)`, with `filterSearch` (the `fuzzyjs` filter and sort) as a parameter. */
  function SearchWord(input: string, allMeta: seq<Meta>, filterSearch: (string, seq<Meta>) -> seq<Meta>): (r: seq<Meta>)
    ensures input == "" ==> r == []
    ensures input != "" ==> r == filterSearch(input, allMeta)
  {
    if |input| == 0 then [] else filterSearch(input, allMeta)
  }
}
