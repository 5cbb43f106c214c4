/**
 * The command-line argument checks of `init` (src/init/_validate.ts): which
 * of the given values are paths, and which directory to write to. Whether a
 * path exists is a question to the file system, given here as the parameter
 * `pathExists`; creating a directory and unpacking an archive are not modelled.
 */
module Validate {
  import opened Wrappers

  /** `string | undefined | boolean`: a flag's value as `sade` hands it over. */
  datatype Arg = Missing | Switch(on: bool) | Text(s: string)

  /** `string | string[] | undefined | boolean`: the positional arguments. */
  datatype Args = One(arg: Arg) | Many(items: seq<string>)

  /** The entries of `[input1, ...input2]` that are strings, in order. */
  function Strings(all: seq<Arg>): (r: seq<string>)
    ensures |r| <= |all|
    ensures |r| == 0 <==> forall k :: 0 <= k < |all| ==> !all[k].Text?
  {
    if all == [] then []
    else (if all[0].Text? then [all[0].s] else []) + Strings(all[1..])
  }

  function Texts(items: seq<string>): (r: seq<Arg>)
    ensures |r| == |items| && forall k :: 0 <= k < |items| ==> r[k] == Text(items[k])
  {
    seq(|items|, k requires 0 <= k < |items| => Text(items[k]))
  }

  lemma {:induction false} StringsOfTexts(items: seq<string>)
    ensures Strings(Texts(items)) == items
  {
    if items != [] {
      assert Texts(items)[1..] == Texts(items[1..]);
      StringsOfTexts(items[1..]);
    }
  }

  /** The strings of `input2`: the value itself, or every element of the array. */
  function Given(input2: Args): seq<string> {
    match input2
    case Many(items) => items
    case One(arg) => if arg.Text? then [arg.s] else []
  }

  lemma StringsOfAll(first: Arg, input2: Args)
    ensures Strings([first] + (if input2.Many? then Texts(input2.items) else [input2.arg])) ==
      (if first.Text? then [first.s] else []) + Given(input2)
  {
    var rest := if input2.Many? then Texts(input2.items) else [input2.arg];
    assert ([first] + rest)[1..] == rest;
    if input2.Many? {
      StringsOfTexts(input2.items);
    } else {
      assert [input2.arg][1..] == [];
    }
  }

  /**
   * `collapseInput(input1, input2)`: `input1` first, then `input2`'s strings
   * in order; nothing when there is no string at all.
   */
  function CollapseInput(input1: Option<string>, input2: Args): (r: Option<seq<string>>)
    ensures r.None? <==> input1.None? && Given(input2) == []
    ensures r.Some? ==> r.value == (if input1.Some? then [input1.value] else []) + Given(input2)
  {
    var first := if input1.Some? then Text(input1.value) else Missing;
    var all := [first] + (if input2.Many? then Texts(input2.items) else [input2.arg]);
    var filter := Strings(all);
    StringsOfAll(first, input2);
    if |filter| > 0 then Some(filter) else None
  }

  /**
   * `validatePath(i, i2)` without the `mkdir`: `i` when it is a string,
   * else `i2` when it is one, and `"."` when that choice is missing or the
   * empty string.
   */
  function ValidatePath(i: Option<string>, i2: Arg): (path: string)
    ensures i.Some? && i.value != "" ==> path == i.value
    ensures i.None? && i2.Text? && i2.s != "" ==> path == i2.s
    ensures (i.Some? && i.value == "") || (i.None? && !(i2.Text? && i2.s != "")) ==> path == "."
  {
    var chosen := if i.Some? then Some(i.value) else if i2.Text? then Some(i2.s) else None;
    if chosen.None? || chosen.value == "" then "." else chosen.value
  }

  /** A given but empty `i` is still chosen, and being falsy it sends the program to `"."`. */
  lemma EmptyPathMasksSecond(p: string)
    ensures ValidatePath(Some(""), Text(p)) == "."
  {
  }

  /** What `validateInput` goes on with. */
  datatype Checked = NoInput | DoesNotExist(path: string) | Unzip(paths: seq<string>)

  /** The first position at or after `from` whose path does not exist. */
  function FirstMissing(paths: seq<string>, pathExists: string -> bool, from: nat): (r: Option<nat>)
    requires from <= |paths|
    ensures r.Some? ==> from <= r.value < |paths| && !pathExists(paths[r.value])
    ensures r.Some? ==> forall j :: from <= j < r.value ==> pathExists(paths[j])
    ensures r.None? ==> forall j :: from <= j < |paths| ==> pathExists(paths[j])
    decreases |paths| - from
  {
    if from == |paths| then None
    else if !pathExists(paths[from]) then Some(from)
    else FirstMissing(paths, pathExists, from + 1)
  }

  /** The outcome of the checks: no input, the first missing path, or every path. */
  function Checks(input1: Option<string>, input2: Args, pathExists: string -> bool): (r: Checked)
    ensures r == NoInput <==> CollapseInput(input1, input2).None?
    ensures r.Unzip? ==> Some(r.paths) == CollapseInput(input1, input2) && forall p :: p in r.paths ==> pathExists(p)
    ensures r.DoesNotExist? ==> r.path in CollapseInput(input1, input2).value && !pathExists(r.path)
  {
    match CollapseInput(input1, input2)
    case None => NoInput
    case Some(paths) =>
      match FirstMissing(paths, pathExists, 0)
      case None => Unzip(paths)
      case Some(k) => DoesNotExist(paths[k])
  }

  /** The check stops at the first missing path: every path before it exists. */
  lemma StopsAtFirstMissing(input1: Option<string>, input2: Args, pathExists: string -> bool)
    requires Checks(input1, input2, pathExists).DoesNotExist?
    ensures var paths, missing := CollapseInput(input1, input2).value, Checks(input1, input2, pathExists).path;
      exists k :: 0 <= k < |paths| && paths[k] == missing && forall j :: 0 <= j < k ==> pathExists(paths[j])
  {
    var paths := CollapseInput(input1, input2).value;
    var k := FirstMissing(paths, pathExists, 0).value;
    assert paths[k] == Checks(input1, input2, pathExists).path;
  }

  /**
   * `validateInput(input1, input2)` up to the `doUnzip` calls: no input when
   * `collapseInput` finds no string, the first collapsed path that does not
   * exist (the source throws there), or the paths to unpack.
   */
  method ValidateInput(input1: Option<string>, input2: Args, pathExists: string -> bool) returns (r: Checked)
    ensures r == Checks(input1, input2, pathExists)
  {
    var collapsed := CollapseInput(input1, input2);
    if collapsed.None? {
      return NoInput;
    }
    var paths := collapsed.value;
    var k := 0;
    while k < |paths|
      invariant 0 <= k <= |paths|
      invariant FirstMissing(paths, pathExists, k) == FirstMissing(paths, pathExists, 0)
    {
      if !pathExists(paths[k]) {
        return DoesNotExist(paths[k]);
      }
      k := k + 1;
    }
    return Unzip(paths);
  }
}
