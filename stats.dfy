/**
 * `capital` (src/init/stats.ts): how many lines of the message text start
 * with a capitalised word and how many with a lower-case word. A line is
 * tested for the upper-case shape first and for the lower-case shape only
 * when that fails; each test is a regular expression anchored at the start.
 */
module Stats {
  import opened Text

  /** `/^ [A-Z][^A-Z0-9 ]|^ [AI] /` */
  predicate IsUpperLine(line: string) {
    |line| >= 3 && line[0] == ' ' &&
    ((IsUpperAscii(line[1]) && !IsUpperAscii(line[2]) && !IsDigit(line[2]) && line[2] != ' ')
     || ((line[1] == 'A' || line[1] == 'I') && line[2] == ' '))
  }

  /** `/^ [a-z][^0-9 ]|^ [ai] /` */
  predicate IsLowerLine(line: string) {
    |line| >= 3 && line[0] == ' ' &&
    ((IsLowerAscii(line[1]) && !IsDigit(line[2]) && line[2] != ' ')
     || ((line[1] == 'a' || line[1] == 'i') && line[2] == ' '))
  }

  /** The number of lines the loop counts as upper-case. */
  function Uppercase(lines: seq<string>): (r: nat)
    ensures r <= |lines|
  {
    if lines == [] then 0 else (if IsUpperLine(lines[0]) then 1 else 0) + Uppercase(lines[1..])
  }

  /** The number of lines the loop counts as lower-case: the upper-case test failed, the lower-case one held. */
  function Lowercase(lines: seq<string>): (r: nat)
    ensures r <= |lines|
  {
    if lines == [] then 0
    else (if !IsUpperLine(lines[0]) && IsLowerLine(lines[0]) then 1 else 0) + Lowercase(lines[1..])
  }

  /** `capital(messagesTxt)`: one pass over the lines, at most one counter per line. */
  method Capital(messagesTxt: string) returns (uppercase: nat, lowercase: nat)
    ensures var lines := SplitLines(messagesTxt);
      uppercase == Uppercase(lines) && lowercase == Lowercase(lines)
  {
    var lines := SplitLines(messagesTxt);
    uppercase, lowercase := 0, 0;
    var i := 0;
    while i < |lines|
      invariant 0 <= i <= |lines|
      invariant uppercase + Uppercase(lines[i..]) == Uppercase(lines)
      invariant lowercase + Lowercase(lines[i..]) == Lowercase(lines)
    {
      assert lines[i..][1..] == lines[i + 1..];
      var line := lines[i];
      if IsUpperLine(line) {
        uppercase := uppercase + 1;
      } else if IsLowerLine(line) {
        lowercase := lowercase + 1;
      }
      i := i + 1;
    }
  }

  /** Every line raises at most one counter. */
  lemma {:induction false} CountsBounded(lines: seq<string>)
    ensures Uppercase(lines) + Lowercase(lines) <= |lines|
  {
    if lines != [] {
      CountsBounded(lines[1..]);
    }
  }

  /**
   * The two shapes exclude each other (the second character is an upper-case
   * letter in one and a lower-case letter in the other), so the order of the
   * tests decides nothing: a line counts as lower-case exactly when it has
   * the lower-case shape.
   */
  lemma ShapesAreDisjoint(line: string)
    ensures !(IsUpperLine(line) && IsLowerLine(line))
  {
  }

  lemma {:induction false} LowercaseIgnoresOrder(lines: seq<string>)
    ensures Lowercase(lines) == |LowerLines(lines)|
  {
    if lines != [] {
      ShapesAreDisjoint(lines[0]);
      LowercaseIgnoresOrder(lines[1..]);
    }
  }

  /** The lines with the lower-case shape, in order. */
  function LowerLines(lines: seq<string>): (r: seq<string>)
    ensures forall l :: l in r <==> l in lines && IsLowerLine(l)
  {
    if lines == [] then [] else (if IsLowerLine(lines[0]) then [lines[0]] else []) + LowerLines(lines[1..])
  }

  /** A counted line starts with a space and then an ASCII letter. */
  lemma CountedLinesStartWithSpaceLetter(line: string)
    requires IsUpperLine(line) || IsLowerLine(line)
    ensures |line| >= 3 && line[0] == ' ' && (IsUpperAscii(line[1]) || IsLowerAscii(line[1]))
  {
  }

  /** The one-letter words: `" A "` and `" I "` are upper-case, `" a "` and `" i "` lower-case. */
  lemma OneLetterWords()
    ensures IsUpperLine(" A ") && IsUpperLine(" I x")
    ensures IsLowerLine(" a ") && IsLowerLine(" i x") && !IsUpperLine(" a ")
    ensures !IsUpperLine(" B ") && !IsLowerLine(" b ")
  {
  }

  /** What may follow the first letter: an upper-case letter or a digit excludes the upper-case shape; only a digit the lower-case one. */
  lemma SecondCharacter()
    ensures !IsUpperLine(" AB") && !IsLowerLine(" AB")
    ensures !IsUpperLine(" A1") && !IsLowerLine(" A1")
    ensures IsUpperLine(" Ab") && IsLowerLine(" aB") && !IsLowerLine(" a1")
    ensures !IsUpperLine("A b") && !IsLowerLine("ab c")
  {
  }

  /** The empty text is one empty line: both counters stay 0. */
  lemma EmptyTextCountsNothing()
    ensures Uppercase(SplitLines("")) == 0 && Lowercase(SplitLines("")) == 0
  {
    assert SplitLines("") == [""] by {
      assert RunEnd("", 0, c => c != '\n') == 0;
    }
  }
}
