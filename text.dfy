/**
 * Character classes and string helpers shared by the browser, the ranking
 * step and the statistics: JavaScript's `\s` class, ASCII digits and case,
 * `padStart`, `Number.prototype.toString` on naturals, and the `split`
 * operations the source applies to text.
 */
module Text {

  /** JavaScript's `\s`: the WhiteSpace and LineTerminator code points. */
  predicate IsWhitespace(c: char) {
    c == '\t' || c == '\n' || c == '\U{B}' || c == '\U{C}' || c == '\r' || c == ' '
    || c == '\U{A0}' || c == '\U{1680}' || ('\U{2000}' <= c <= '\U{200A}')
    || c == '\U{2028}' || c == '\U{2029}' || c == '\U{202F}' || c == '\U{205F}'
    || c == '\U{3000}' || c == '\U{FEFF}'
  }

  /** The characters a regular expression's `.` refuses to match. */
  predicate IsLineTerminator(c: char) {
    c == '\n' || c == '\r' || c == '\U{2028}' || c == '\U{2029}'
  }

  predicate IsDigit(c: char) {
    '0' <= c <= '9'
  }

  predicate AllDigits(s: string) {
    forall i :: 0 <= i < |s| ==> IsDigit(s[i])
  }

  predicate IsUpperAscii(c: char) {
    'A' <= c <= 'Z'
  }

  predicate IsLowerAscii(c: char) {
    'a' <= c <= 'z'
  }

  function Min(a: int, b: int): int { if a <= b then a else b }
  function Max(a: int, b: int): int { if a >= b then a else b }

  /** `toLowerCase` on one character, restricted to the ASCII letters. */
  function Lower(c: char): (r: char)
    ensures IsWhitespace(r) <==> IsWhitespace(c)
    ensures !IsUpperAscii(r)
  {
    if IsUpperAscii(c) then (c as int + 32) as char else c
  }

  function LowerString(s: string): (r: string)
    ensures |r| == |s|
    ensures forall i :: 0 <= i < |s| ==> r[i] == Lower(s[i])
  {
    if s == [] then [] else [Lower(s[0])] + LowerString(s[1..])
  }

  /** The first index at or after `i` whose character is not in the run, or `|s|`. */
  function RunEnd(s: string, i: nat, inRun: char -> bool): (j: nat)
    requires i <= |s|
    ensures i <= j <= |s|
    ensures forall k :: i <= k < j ==> inRun(s[k])
    ensures j < |s| ==> !inRun(s[j])
    decreases |s| - i
  {
    if i == |s| || !inRun(s[i]) then i else RunEnd(s, i + 1, inRun)
  }

  /**
   * `s.split(re)` where `re` matches a maximal non-empty run of separator
   * characters (`/ +/`, `/\s+/`): the pieces between the runs, including an
   * empty first or last piece when `s` starts or ends with a separator.
   */
  function SplitRuns(s: string, isSep: char -> bool): (r: seq<string>)
    ensures |r| >= 1
    ensures forall p, k :: p in r && 0 <= k < |p| ==> !isSep(p[k])
    decreases |s|
  {
    var i := RunEnd(s, 0, c => !isSep(c));
    if i == |s| then [s]
    else
      var j := RunEnd(s, i, isSep);
      [s[..i]] + SplitRuns(s[j..], isSep)
  }

  /** `s.split(sep)` for a one-character separator. */
  function SplitAt(s: string, sep: char): (r: seq<string>)
    ensures |r| >= 1
    decreases |s|
  {
    var i := RunEnd(s, 0, c => c != sep);
    if i == |s| then [s] else [s[..i]] + SplitAt(s[i + 1..], sep)
  }

  lemma {:induction false} SplitAtHasNoSeparator(s: string, sep: char)
    ensures forall p, k :: p in SplitAt(s, sep) && 0 <= k < |p| ==> p[k] != sep
    decreases |s|
  {
    var i := RunEnd(s, 0, c => c != sep);
    if i < |s| {
      SplitAtHasNoSeparator(s[i + 1..], sep);
      assert SplitAt(s, sep) == [s[..i]] + SplitAt(s[i + 1..], sep);
    }
  }

  function DropCR(p: string): string {
    if |p| > 0 && p[|p| - 1] == '\r' then p[..|p| - 1] else p
  }

  /** Drops one trailing carriage return from every piece but the last. */
  function StripCRs(ps: seq<string>): (r: seq<string>)
    ensures |r| == |ps|
    ensures forall i :: 0 <= i < |ps| ==> r[i] <= ps[i]
  {
    if |ps| <= 1 then ps else [DropCR(ps[0])] + StripCRs(ps[1..])
  }

  /** `s.split(/\r?\n/g)`: a line ends at every `\n`, a `\r` just before it is part of the separator. */
  function SplitLines(s: string): (r: seq<string>)
    ensures |r| >= 1
    ensures forall l, k :: l in r && 0 <= k < |l| ==> l[k] != '\n'
  {
    var ps := SplitAt(s, '\n');
    SplitAtHasNoSeparator(s, '\n');
    var r := StripCRs(ps);
    assert forall i, k :: 0 <= i < |r| && 0 <= k < |r[i]| ==> r[i][k] == ps[i][k] && ps[i] in ps;
    r
  }

  /** `parts.join(sep)`. */
  function Join(parts: seq<string>, sep: string): string {
    if parts == [] then ""
    else if |parts| == 1 then parts[0]
    else parts[0] + sep + Join(parts[1..], sep)
  }

  lemma {:induction false} SplitAtJoin(lines: seq<string>)
    requires |lines| >= 1
    requires forall l, k :: l in lines && 0 <= k < |l| ==> l[k] != '\n'
    ensures SplitAt(Join(lines, "\n"), '\n') == lines
  {
    var s := Join(lines, "\n");
    var l := lines[0];
    if |lines| == 1 {
      assert s == l;
      var i := RunEnd(s, 0, c => c != '\n');
      assert i == |s|;
    } else {
      var rest := Join(lines[1..], "\n");
      assert s == l + "\n" + rest;
      var i := RunEnd(s, 0, c => c != '\n');
      assert s[|l|] == '\n';
      assert forall k :: 0 <= k < |l| ==> s[k] == l[k];
      assert i == |l|;
      assert s[..i] == l;
      assert s[i + 1..] == rest;
      SplitAtJoin(lines[1..]);
      assert lines == [l] + lines[1..];
    }
  }

  lemma {:induction false} StripCRsUnchanged(ps: seq<string>)
    requires forall p :: p in ps ==> DropCR(p) == p
    ensures StripCRs(ps) == ps
  {
    if |ps| > 1 {
      StripCRsUnchanged(ps[1..]);
      assert ps == [ps[0]] + ps[1..];
    }
  }

  /** Joining lines with `\n` and splitting on `\r?\n` gives the lines back. */
  lemma SplitLinesJoin(lines: seq<string>)
    requires |lines| >= 1
    requires forall l, k :: l in lines && 0 <= k < |l| ==> l[k] != '\n' && l[k] != '\r'
    ensures SplitLines(Join(lines, "\n")) == lines
  {
    SplitAtJoin(lines);
    forall p | p in lines ensures DropCR(p) == p {
      if |p| > 0 { assert p[|p| - 1] != '\r'; }
    }
    StripCRsUnchanged(lines);
  }

  /** JavaScript's whitespace trimming at both ends (`String.prototype.trim`). */
  function TrimStart(s: string): (r: string)
    ensures |r| <= |s|
    ensures r == s[|s| - |r|..]
    ensures |r| > 0 ==> !IsWhitespace(r[0])
  {
    if |s| > 0 && IsWhitespace(s[0]) then TrimStart(s[1..]) else s
  }

  function TrimEnd(s: string): (r: string)
    ensures |r| <= |s|
    ensures r == s[..|r|]
    ensures |r| > 0 ==> !IsWhitespace(r[|r| - 1])
  {
    if |s| > 0 && IsWhitespace(s[|s| - 1]) then TrimEnd(s[..|s| - 1]) else s
  }

  function Trim(s: string): string {
    TrimEnd(TrimStart(s))
  }

  // ---- decimal numerals ----

  function DigitChar(d: nat): (c: char)
    requires d < 10
    ensures IsDigit(c)
  {
    ('0' as int + d) as char
  }

  /** `n.toString()` for a natural number: its decimal numeral, without leading zeros. */
  function Dec(n: nat): (r: string)
    ensures |r| >= 1 && AllDigits(r)
    decreases n
  {
    if n < 10 then [DigitChar(n)] else Dec(n / 10) + [DigitChar(n % 10)]
  }

  /** The value of a string of decimal digits (`parseInt` on such a string). */
  function Value(s: string): nat
    requires AllDigits(s)
  {
    if s == [] then 0 else Value(s[..|s| - 1]) * 10 + (s[|s| - 1] as int - '0' as int)
  }

  function Repeat(c: char, n: nat): (r: string)
    ensures |r| == n
    ensures forall i :: 0 <= i < n ==> r[i] == c
  {
    if n == 0 then "" else [c] + Repeat(c, n - 1)
  }

  /** `s.padStart(w, fill)`: left-pads to width `w`, never truncates. */
  function PadStart(s: string, w: nat, fill: char): (r: string)
    ensures |r| == Max(|s|, w)
  {
    if |s| >= w then s else Repeat(fill, w - |s|) + s
  }

  /** Padding only adds fill characters in front: the original string is the suffix. */
  lemma PadStartShape(s: string, w: nat, fill: char)
    ensures var r := PadStart(s, w, fill);
      && r[|r| - |s|..] == s
      && forall i :: 0 <= i < |r| - |s| ==> r[i] == fill
  {
  }

  lemma {:induction false} ValueDec(n: nat)
    ensures Value(Dec(n)) == n
    decreases n
  {
    if n >= 10 {
      ValueDec(n / 10);
      var s := Dec(n);
      assert s[..|s| - 1] == Dec(n / 10);
    }
  }

  lemma {:induction false} DecLengthMonotone(a: nat, b: nat)
    requires a <= b
    ensures |Dec(a)| <= |Dec(b)|
    decreases b
  {
    if a >= 10 {
      DecLengthMonotone(a / 10, b / 10);
    }
  }

  lemma {:induction false} ValueZeros(k: nat)
    ensures Value(Repeat('0', k)) == 0
    decreases k
  {
    if k > 0 {
      var z := Repeat('0', k);
      assert z[..k - 1] == Repeat('0', k - 1);
      ValueZeros(k - 1);
    }
  }

  lemma {:induction false} ValueLeadingZeros(k: nat, s: string)
    requires AllDigits(s)
    ensures AllDigits(Repeat('0', k) + s)
    ensures Value(Repeat('0', k) + s) == Value(s)
    decreases |s|
  {
    var t := Repeat('0', k) + s;
    if s == [] {
      assert t == Repeat('0', k);
      ValueZeros(k);
    } else {
      ValueLeadingZeros(k, s[..|s| - 1]);
      assert t[..|t| - 1] == Repeat('0', k) + s[..|s| - 1];
    }
  }

  /** A zero-padded numeral is all digits, has the padded width, and still denotes `n`. */
  lemma PaddedNumeral(n: nat, w: nat)
    ensures AllDigits(PadStart(Dec(n), w, '0'))
    ensures |Dec(n)| <= w ==> |PadStart(Dec(n), w, '0')| == w
    ensures Value(PadStart(Dec(n), w, '0')) == n
  {
    ValueDec(n);
    if |Dec(n)| < w {
      ValueLeadingZeros(w - |Dec(n)|, Dec(n));
    }
  }
}
