/**
 * The list controller every browser page is built on (`TerminalLines` in
 * src/corpus.ts): a cursor over the page's items and a numeric quick-jump
 * mode in which typed digits collect in a buffer until ENTER, UP or DOWN
 * commits them.
 *
 * The pure functions on `Cursor` values say what one key press does; the
 * class `Viewport` holds the same state in fields, as the source does, and
 * its methods are proved to act as those functions say.
 */
module Viewport {
  import opened Wrappers
  import opened Text

  type DigitKey = c: char | IsDigit(c) witness '0'

  /**
   * The keys the browser tells apart. The byte codes behind them (`STDIN.UP`,
   * ...) live in a module that is not part of this model; only their meaning is.
   * `LetterQ` is the plain `q`, `CtrlC` the interrupt byte.
   */
  datatype Key = Up | Down | Left | Right | Escape | Enter | Backspace | Digit(d: DigitKey) | LetterQ | CtrlC | Other

  /** What `data` did with a key: handled it, asked to exit, or left it to the page (`stringData`). */
  datatype Routed = Consumed | Quit | Unhandled

  /** The fields `index`, `isNum` and `inputNumber` of a page. */
  datatype Cursor = Cursor(index: int, isNum: bool, inputNumber: string)

  /** Where the cursor may be: inside the list, or 0 or -1 on an empty one (-1 is what a jump yields there). */
  predicate IndexOk(index: int, len: int) {
    if len > 0 then 0 <= index < len else index == 0 || index == -1
  }

  /** The buffer only ever holds digits, and is empty outside number mode. */
  predicate WellFormed(c: Cursor, len: int) {
    IndexOk(c.index, len) && AllDigits(c.inputNumber) && (!c.isNum ==> c.inputNumber == "")
  }

  /** `add(step)`: forward, stopping at the last item. */
  function Forward(index: int, len: nat, step: nat): (r: int)
    ensures IndexOk(index, len) ==> IndexOk(r, len)
    ensures 0 <= index && index + step < len ==> r == index + step
    ensures 0 <= index < len && index + step >= len ==> r == len - 1
    ensures len == 0 && IndexOk(index, 0) ==> r == index
  {
    if index >= len then index else Min(index + step, len - 1)
  }

  /** `sub(step)`: backward, stopping at the first item. */
  function Backward(index: int, step: nat): (r: int)
    ensures forall len :: IndexOk(index, len) ==> IndexOk(r, len)
    ensures index - step >= 0 ==> r == index - step
    ensures index >= 0 && index - step < 0 ==> r == 0
    ensures index < 0 ==> r == index
  {
    if index <= 0 then index else Max(index - step, 0)
  }

  /** `parseInt` on the buffer: the value of its leading digits, `None` (NaN) when there are none. */
  function ParseInt(s: string): (r: Option<nat>)
    ensures AllDigits(s) ==> (r.None? <==> s == "")
    ensures AllDigits(s) && s != "" ==> r == Some(Value(s))
  {
    var k := RunEnd(s, 0, IsDigit);
    DigitsRunToEnd(s);
    if k == 0 then None else Some(Value(s[..k]))
  }

  lemma DigitsRunToEnd(s: string)
    ensures AllDigits(s) ==> RunEnd(s, 0, IsDigit) == |s| && s[..|s|] == s
  {
  }

  /** `makeInputNumber`: the typed number, clamped to `[0, len - 1]`; -1 on an empty list. */
  function JumpTarget(buffer: string, len: nat): (r: Option<int>)
    ensures AllDigits(buffer) && buffer != "" ==> r == Some(Min(Max(0, Value(buffer)), len - 1))
    ensures r.Some? ==> IndexOk(r.value, len)
  {
    match ParseInt(buffer)
    case None => None
    case Some(n) => Some(Min(Max(0, n), len - 1))
  }

  /** `makeIndex` and the assignment after it: a non-empty buffer is committed and number mode ends. */
  function Commit(c: Cursor, len: nat): (r: Cursor)
    ensures c.inputNumber == "" ==> r == c
    ensures c.inputNumber != "" ==> !r.isNum && r.inputNumber == ""
    ensures AllDigits(c.inputNumber) && c.inputNumber != "" ==> r.index == Min(Max(0, Value(c.inputNumber)), len - 1)
  {
    if c.inputNumber == "" then c
    else Cursor(JumpTarget(c.inputNumber, len).GetOr(c.index), false, "")
  }

  /** `numData`: a key in number mode. */
  function NumPress(c: Cursor, len: nat, key: Key): (r: Cursor)
    ensures !(key.Up? || key.Down? || key.Enter?) ==> r.index == c.index
    ensures r.isNum ==> c.isNum
    ensures c.isNum && !r.isNum ==> r.inputNumber == ""
    ensures key.Digit? ==> r.inputNumber == c.inputNumber + [key.d]
  {
    match key
    case Escape => c.(isNum := false, inputNumber := "")
    case Digit(d) => c.(inputNumber := c.inputNumber + [d])
    case Backspace =>
      if |c.inputNumber| != 0 then c.(inputNumber := c.inputNumber[..|c.inputNumber| - 1]) else c
    case Down => var t := Commit(c, len); t.(index := Forward(t.index, len, 1))
    case Up => var t := Commit(c, len); t.(index := Backward(t.index, 1))
    case Enter => Commit(c, len)
    case _ => c
  }

  /** `data`: one key press on a page with `len` items. */
  function Press(c: Cursor, len: nat, key: Key): (r: (Cursor, Routed))
    ensures c.isNum ==> r.1 == Consumed
    ensures r.1 == Quit <==> !c.isNum && key == LetterQ
    ensures r.1 == Unhandled <==> !c.isNum && !(key.Up? || key.Down? || key.LetterQ? || key.Digit?)
    ensures r.1 != Consumed ==> r.0 == c
    ensures !c.isNum && !key.Digit? ==> !r.0.isNum
  {
    if c.isNum then (NumPress(c, len, key), Consumed)
    else
      match key
      case Up => (c.(index := Backward(c.index, 1)), Consumed)
      case Down => (c.(index := Forward(c.index, len, 1)), Consumed)
      case LetterQ => (c, Quit)
      case Digit(d) => (c.(isNum := true, inputNumber := [d]), Consumed)
      case _ => (c, Unhandled)
  }

  /** Every key keeps the cursor state well formed. */
  lemma PressKeepsWellFormed(c: Cursor, len: nat, key: Key)
    requires WellFormed(c, len)
    ensures WellFormed(Press(c, len, key).0, len)
  {
    if c.isNum {
      NumPressKeepsWellFormed(c, len, key);
    }
  }

  lemma NumPressKeepsWellFormed(c: Cursor, len: nat, key: Key)
    requires WellFormed(c, len) && c.isNum
    ensures WellFormed(NumPress(c, len, key), len)
  {
    if key.Digit? {
      var b := c.inputNumber + [key.d];
      assert forall i :: 0 <= i < |b| ==> IsDigit(b[i]) by {
        forall i | 0 <= i < |b| ensures IsDigit(b[i]) {
          if i < |c.inputNumber| { assert b[i] == c.inputNumber[i]; }
        }
      }
    }
  }

  /**
   * The state after a sequence of key presses. Whatever keys are pressed,
   * the state stays well formed, so on a non-empty list the cursor stays
   * inside `[0, len - 1]`.
   */
  function Run(c: Cursor, len: nat, keys: seq<Key>): (r: Cursor)
    ensures WellFormed(c, len) ==> WellFormed(r, len)
    ensures WellFormed(c, len) && len > 0 ==> 0 <= r.index < len
    decreases |keys|
  {
    if keys == [] then c
    else
      var n := Press(c, len, keys[0]).0;
      assert WellFormed(c, len) ==> WellFormed(n, len) by {
        if WellFormed(c, len) {
          PressKeepsWellFormed(c, len, keys[0]);
        }
      }
      Run(n, len, keys[1..])
  }

  /** Pressing `a` and then `b` is pressing `a + b`: each key sees the state the previous ones left. */
  lemma {:induction false} RunAppend(c: Cursor, len: nat, a: seq<Key>, b: seq<Key>)
    ensures Run(c, len, a + b) == Run(Run(c, len, a), len, b)
    decreases |a|
  {
    if a == [] {
      assert a + b == b;
    } else {
      assert (a + b)[0] == a[0];
      assert (a + b)[1..] == a[1..] + b;
      RunAppend(Press(c, len, a[0]).0, len, a[1..], b);
    }
  }

  /** UP and DOWN outside number mode clamp at the ends instead of wrapping around. */
  lemma ArrowsClamp(c: Cursor, len: nat)
    requires !c.isNum && len > 0 && 0 <= c.index < len
    ensures Press(c, len, Down) == (c.(index := if c.index == len - 1 then len - 1 else c.index + 1), Consumed)
    ensures Press(c, len, Up) == (c.(index := if c.index == 0 then 0 else c.index - 1), Consumed)
  {
  }

  /** On an empty list the arrows leave the cursor where it is. */
  lemma ArrowsOnEmptyList(c: Cursor)
    requires !c.isNum && IndexOk(c.index, 0)
    ensures Press(c, 0, Down).0.index == c.index && Press(c, 0, Up).0.index == c.index
  {
  }

  /** A digit outside number mode starts number mode with that digit; the cursor stays and the page keeps the key. */
  lemma DigitStartsNumberMode(c: Cursor, len: nat, d: DigitKey)
    requires !c.isNum
    ensures Press(c, len, Digit(d)) == (Cursor(c.index, true, [d]), Consumed)
  {
  }

  /**
   * Editing the buffer in number mode: a digit is appended, BACKSPACE drops
   * exactly the last character of a non-empty buffer, ESCAPE leaves number
   * mode with an empty buffer, and no key reaches the page.
   */
  lemma NumberModeEditing(c: Cursor, len: nat, key: Key)
    requires c.isNum
    ensures Press(c, len, key).1 == Consumed
    ensures key.Digit? ==> Press(c, len, key).0 == Cursor(c.index, true, c.inputNumber + [key.d])
    ensures key == Backspace && c.inputNumber != "" ==>
      Press(c, len, key).0 == Cursor(c.index, true, c.inputNumber[..|c.inputNumber| - 1])
    ensures key == Backspace && c.inputNumber == "" ==> Press(c, len, key).0 == c
    ensures key == Escape ==> Press(c, len, key).0 == Cursor(c.index, false, "")
    ensures key in {Left, Right, LetterQ, CtrlC, Other} ==> Press(c, len, key).0 == c
  {
  }

  /**
   * Committing a non-empty buffer: ENTER moves the cursor to the typed number
   * clamped to `[0, len - 1]`, UP and DOWN then step from there; number mode
   * ends and the buffer is emptied.
   */
  lemma CommitJumps(c: Cursor, len: nat, key: Key)
    requires WellFormed(c, len) && c.isNum && c.inputNumber != ""
    requires key in {Enter, Up, Down}
    ensures var j := Min(Max(0, Value(c.inputNumber)), len - 1);
      Press(c, len, key).0 ==
        Cursor(if key == Enter then j else if key == Up then Backward(j, 1) else Forward(j, len, 1), false, "")
  {
    assert JumpTarget(c.inputNumber, len) == Some(Min(Max(0, Value(c.inputNumber)), len - 1));
  }

  /**
   * With an empty buffer nothing is committed: number mode goes on, ENTER
   * leaves the cursor alone, but UP and DOWN still step it.
   */
  lemma CommitEmptyBuffer(c: Cursor, len: nat)
    requires c.isNum && c.inputNumber == ""
    ensures Press(c, len, Enter).0 == c
    ensures Press(c, len, Up).0 == c.(index := Backward(c.index, 1))
    ensures Press(c, len, Down).0 == c.(index := Forward(c.index, len, 1))
  {
  }

  /** Examples on a 20-item list: "7" jumps to 7, "999" to the last item. */
  lemma JumpExamples(i: int)
    requires 0 <= i < 20
    ensures Press(Cursor(i, true, "7"), 20, Enter).0 == Cursor(7, false, "")
    ensures Press(Cursor(i, true, "999"), 20, Enter).0 == Cursor(19, false, "")
  {
    assert Value("7") == 7;
    assert "999"[..2] == "99" && "99"[..1] == "9";
    assert Value("999") == 999;
  }

  /** On an empty list a committed jump puts the cursor at -1, and the arrows leave it there. */
  lemma JumpOnEmptyList()
    ensures Press(Cursor(0, true, "5"), 0, Enter).0 == Cursor(-1, false, "")
    ensures Press(Cursor(-1, false, ""), 0, Up).0 == Cursor(-1, false, "")
    ensures Press(Cursor(-1, false, ""), 0, Down).0 == Cursor(-1, false, "")
  {
    assert Value("5") == 5;
  }

  /**
   * The list state of a page. `items` and `len` are replaced by the page's
   * `init`; the cursor fields change only through the methods below.
   */
  class Viewport<Item> {
    var index: int
    var isNum: bool
    var inputNumber: string
    var items: seq<Item>
    var len: nat

    function State(): Cursor
      reads this
    {
      Cursor(index, isNum, inputNumber)
    }

    ghost predicate Valid()
      reads this
    {
      len == |items| && WellFormed(State(), len)
    }

    constructor (initial: seq<Item>)
      ensures Valid()
      ensures items == initial && len == |initial|
      ensures State() == Cursor(0, false, "")
    {
      index, isNum, inputNumber := 0, false, "";
      items, len := initial, |initial|;
    }

    /** `add(toAdd)` */
    method Add(toAdd: nat)
      modifies this`index
      ensures index == Forward(old(index), len, toAdd)
    {
      if index >= len {
        return;
      }
      if index + toAdd >= len - 1 {
        index := len - 1;
        return;
      }
      index := index + toAdd;
    }

    /** `sub(toSub)` */
    method Sub(toSub: nat)
      modifies this`index
      ensures index == Backward(old(index), toSub)
    {
      if index <= 0 {
        return;
      }
      if index - toSub <= 0 {
        index := 0;
        return;
      }
      index := index - toSub;
    }

    /** `num(init)`: enter number mode with the first digit. */
    method Num(init: DigitKey)
      modifies this`inputNumber, this`isNum
      ensures inputNumber == [init] && isNum
    {
      inputNumber := [init];
      isNum := true;
    }

    /** `makeIndex`: `null` on an empty buffer; otherwise the clamped number, with buffer and mode cleared. */
    method MakeIndex() returns (r: Option<int>)
      modifies this`inputNumber, this`isNum
      ensures old(inputNumber) == "" ==> r.None? && inputNumber == old(inputNumber) && isNum == old(isNum)
      ensures old(inputNumber) != "" ==> r == JumpTarget(old(inputNumber), len) && inputNumber == "" && !isNum
    {
      if |inputNumber| == 0 {
        return None;
      }
      r := JumpTarget(inputNumber, len);
      inputNumber := "";
      isNum := false;
    }

    /** `numData(data)` */
    method NumData(key: Key)
      requires Valid() && isNum
      modifies this`index, this`isNum, this`inputNumber
      ensures Valid()
      ensures State() == NumPress(old(State()), len, key)
    {
      ghost var before := State();
      match key {
        case Escape =>
          isNum := false;
          inputNumber := "";
        case Digit(d) =>
          inputNumber := inputNumber + [d];
        case Backspace =>
          if |inputNumber| != 0 {
            inputNumber := inputNumber[..|inputNumber| - 1];
          }
        case Down =>
          var tmpIndex := MakeIndex();
          if tmpIndex.Some? {
            index := tmpIndex.value;
          }
          Add(1);
        case Up =>
          var tmpIndex := MakeIndex();
          if tmpIndex.Some? {
            index := tmpIndex.value;
          }
          Sub(1);
        case Enter =>
          var tmpIndex := MakeIndex();
          if tmpIndex.Some? {
            index := tmpIndex.value;
          }
        case _ =>
      }
      NumPressKeepsWellFormed(before, len, key);
    }

    /** `data(data, pages)` up to the call of the page's own `stringData`. */
    method Data(key: Key) returns (r: Routed)
      requires Valid()
      modifies this`index, this`isNum, this`inputNumber
      ensures Valid()
      ensures (State(), r) == Press(old(State()), len, key)
    {
      ghost var before := State();
      if isNum {
        NumData(key);
        return Consumed;
      }
      match key {
        case Up =>
          Sub(1);
          r := Consumed;
        case Down =>
          Add(1);
          r := Consumed;
        case LetterQ =>
          r := Quit;
        case Digit(d) =>
          Num(d);
          r := Consumed;
        case _ =>
          r := Unhandled;
      }
      PressKeepsWellFormed(before, len, key);
    }

    /** A page's `init`: new items, cursor back at the top (`isNum` and the buffer are left as they are). */
    method Reset(newItems: seq<Item>)
      requires Valid()
      modifies this`items, this`len, this`index
      ensures Valid()
      ensures items == newItems && len == |newItems| && index == 0
    {
      items := newItems;
      len := |newItems|;
      index := 0;
    }
  }
}
