/**
 * The search prompt (`search` in src/entry.ts): the line buffer `str` edited
 * by every chunk of input. Each chunk is compared, URI-encoded, with
 * `%08` (backspace), `%17` (ctrl-W), `%0D` (return) and, in the interrupt
 * listener, `%03` (ctrl-C); any other chunk is appended when all of its
 * characters are allowed. The chunk that encodes to `%xx` is the single
 * character with that code.
 */
module Entry {
  import opened Text

  const Backspace: string := [8 as char]
  const DeleteWord: string := [23 as char]
  const Return: string := [13 as char]
  const Interrupt: string := [3 as char]

  predicate IsSpace(c: char) {
    c == ' '
  }

  predicate NotSpace(c: char) {
    c != ' '
  }

  /** The length of the longest suffix of `s` made of characters in the run. */
  function TrailingRun(s: string, inRun: char -> bool): (n: nat)
    ensures n <= |s|
    ensures forall k :: |s| - n <= k < |s| ==> inRun(s[k])
    ensures n < |s| ==> !inRun(s[|s| - n - 1])
    decreases |s|
  {
    if s == [] || !inRun(s[|s| - 1]) then 0
    else
      var rest := s[..|s| - 1];
      var n := TrailingRun(rest, inRun);
      assert forall k :: 0 <= k < |rest| ==> rest[k] == s[k];
      n + 1
  }

  /**
   * `back` for `%17`: the trailing spaces (`/( +)$/`) when the buffer ends in
   * a space, otherwise the trailing word and the spaces before it
   * (`/( +)?[^ ]+$/g`, whose first match starts where those spaces start).
   */
  function Back(str: string): (back: nat)
    ensures back <= |str|
  {
    if |str| > 0 && str[|str| - 1] == ' ' then TrailingRun(str, IsSpace)
    else
      var w := TrailingRun(str, NotSpace);
      w + TrailingRun(str[..|str| - w], IsSpace)
  }

  /** The characters of `/^[-\\/_$@=^?!.:,;#+*|&%"'()[\]{} \p{L}\d]+$/ui`, letters restricted to ASCII. */
  predicate Allowed(c: char) {
    c in "-\\/_$@=^?!.:,;#+*|&%\"'()[]{} " || IsUpperAscii(c) || IsLowerAscii(c) || IsDigit(c)
  }

  /** The regular expression's test: one or more allowed characters and nothing else. */
  predicate MatchesAllowed(data: string)
    decreases |data|
  {
    |data| >= 1 && Allowed(data[0]) && (|data| == 1 || MatchesAllowed(data[1..]))
  }

  /** The buffer after `line(data)`; return leaves it as it is and ends the prompt. */
  function Edit(str: string, data: string): (r: string)
    ensures r <= str || r == str + data
  {
    if data == Backspace then (if |str| > 0 then str[..|str| - 1] else str)
    else if data == DeleteWord then (if |str| > 0 then str[..|str| - Back(str)] else str)
    else if data == Return then str
    else if MatchesAllowed(data) then str + data
    else str
  }

  /** The test accepts exactly the non-empty chunks of allowed characters. */
  lemma {:induction false} MatchesAllowedIff(data: string)
    ensures MatchesAllowed(data) <==> data != [] && forall k :: 0 <= k < |data| ==> Allowed(data[k])
    decreases |data|
  {
    if |data| > 1 {
      MatchesAllowedIff(data[1..]);
      assert forall k :: 1 <= k < |data| ==> data[1..][k - 1] == data[k];
    }
  }

  /** `%08` removes exactly the last character, and nothing from an empty buffer. */
  lemma BackspaceDropsLast(str: string)
    ensures str != [] ==> Edit(str, Backspace) + [str[|str| - 1]] == str
    ensures str == [] ==> Edit(str, Backspace) == []
  {
  }

  /** From `lo` on, `s` is spaces up to `i` and then a non-empty word without spaces. */
  predicate SpacesThenWord(s: string, lo: nat, i: nat) {
    lo <= i < |s| && (forall k :: lo <= k < i ==> s[k] == ' ') && (forall k :: i <= k < |s| ==> s[k] != ' ')
  }

  /**
   * `%17` after a word removes that word and the spaces before it: what stays
   * is empty or ends in a non-space, what goes is spaces and then a word, and
   * the spaces are there unless nothing stays.
   */
  lemma DeleteWordAfterWord(str: string)
    requires str != [] && str[|str| - 1] != ' '
    ensures var r := Edit(str, DeleteWord);
      && |r| < |str| && r == str[..|r|]
      && (|r| > 0 ==> str[|r| - 1] != ' ')
      && exists i: nat :: SpacesThenWord(str, |r|, i) && (|r| > 0 ==> i > |r|)
  {
    var w := TrailingRun(str, NotSpace);
    var head := str[..|str| - w];
    var sp := TrailingRun(head, IsSpace);
    var r := Edit(str, DeleteWord);
    assert r == str[..|str| - w - sp];
    var i := |str| - w;
    assert forall k :: 0 <= k < |head| ==> head[k] == str[k];
    assert SpacesThenWord(str, |r|, i);
    if |r| > 0 {
      assert str[|r| - 1] == head[|head| - sp - 1];
      assert str[i - 1] == ' ' && head[|head| - 1] == ' ';
    }
  }

  /** `%17` after spaces removes exactly the trailing spaces. */
  lemma DeleteWordAfterSpaces(str: string)
    requires str != [] && str[|str| - 1] == ' '
    ensures var r := Edit(str, DeleteWord);
      && |r| < |str| && r == str[..|r|]
      && (forall k :: |r| <= k < |str| ==> str[k] == ' ')
      && (|r| > 0 ==> str[|r| - 1] != ' ')
  {
  }

  /** The deletion keys leave a prefix of the buffer, and an empty buffer empty. */
  lemma DeletionLeavesPrefix(str: string, data: string)
    requires data == Backspace || data == DeleteWord
    ensures |Edit(str, data)| <= |str| && Edit(str, data) == str[..|Edit(str, data)|]
    ensures str == [] ==> Edit(str, data) == []
  {
  }

  /** Any other chunk is appended whole when every character is allowed, and otherwise ignored. */
  lemma AppendIffAllowed(str: string, data: string)
    requires data != Backspace && data != DeleteWord && data != Return
    ensures (data != [] && forall k :: 0 <= k < |data| ==> Allowed(data[k])) ==> Edit(str, data) == str + data
    ensures !(data != [] && forall k :: 0 <= k < |data| ==> Allowed(data[k])) ==> Edit(str, data) == str
  {
    MatchesAllowedIff(data);
  }

  /** An arrow key's escape sequence is not allowed: the buffer is unchanged. */
  lemma EscapeSequenceIgnored(str: string)
    ensures Edit(str, [27 as char, '[', 'A']) == str
  {
    assert !Allowed(27 as char);
  }

  /** `handleSigInt`: the interrupt listener exits on `%03` and on nothing else. */
  function HandleSigInt(data: string): (exit: bool)
    ensures exit <==> |data| == 1 && data[0] == 3 as char
  {
    data == Interrupt
  }

  datatype PromptStatus = Editing | Submitted | Interrupted

  /** The prompt's closure state: the buffer, and whether the prompt is still reading. */
  class SearchPrompt {
    var str: string
    var status: PromptStatus

    constructor ()
      ensures str == "" && status == Editing
    {
      str := "";
      status := Editing;
    }

    /** One chunk on the standard input: `handleSigInt` runs first and exits the process on `%03`. */
    method Receive(data: string)
      requires status == Editing
      modifies this
      ensures data == Interrupt ==> status == Interrupted && str == old(str)
      ensures data != Interrupt ==> status == (if data == Return then Submitted else Editing)
      ensures data != Interrupt ==> str == Edit(old(str), data)
    {
      if HandleSigInt(data) {
        status := Interrupted;
        return;
      }
      Line(data);
    }

    /** `line(data)`: the switch on the encoded chunk. */
    method Line(data: string)
      modifies this
      ensures status == (if data == Return then Submitted else old(status))
      ensures str == Edit(old(str), data)
    {
      if data == Backspace {
        if |str| > 0 {
          str := str[..|str| - 1];
        }
      } else if data == DeleteWord {
        if |str| > 0 {
          var back := Back(str);
          str := str[..|str| - back];
        }
      } else if data == Return {
        status := Submitted;
      } else if MatchesAllowed(data) {
        str := str + data;
      }
    }
  }
}
