/**
 * `remove_file(target_file, start_line, end_line)`: delete an inclusive,
 * 1-based range of lines. A missing bound defaults to the first or the last
 * line, the end is clamped to the file, and a start past the end removes
 * nothing but still succeeds.
 */
module RemoveFile {
  import opened Wrappers
  import opened Text
  import opened Lines
  import opened Files

  function OptToString(x: Option<int>): string
  {
    if x.Some? then IntToString(x.value) else "None"
  }

  function Min(a: int, b: int): int
  {
    if a < b then a else b
  }

  /** The first line removed: `start_line`, or line 1 when it is absent. */
  function FirstLine(startLine: Option<int>): int
  {
    if startLine.Some? then startLine.value else 1
  }

  /** The last line removed: `end_line` clamped to the file, or the last line when it is absent. */
  function LastLine(endLine: Option<int>, n: nat): int
  {
    Min(if endLine.Some? then endLine.value else n, n)
  }

  /** Why `remove_file` refuses its bounds, or None when it accepts them. */
  function RangeError(startLine: Option<int>, endLine: Option<int>): Option<string>
  {
    if startLine.None? && endLine.None? then Some("Error: At least one of start_line or end_line must be specified")
    else if startLine.Some? && startLine.value < 1 then Some("Error: start_line must be at least 1")
    else if endLine.Some? && endLine.value < 1 then Some("Error: end_line must be at least 1")
    else if startLine.Some? && endLine.Some? && startLine.value > endLine.value then
      Some("Error: start_line must be less than or equal to end_line")
    else None
  }

  /** The text `remove_file` leaves in the file `t` for accepted bounds:
      `del lines[start_idx:end_idx + 1]`, or `t` itself when the start lies
      past the last line. */
  function NewText(t: string, startLine: Option<int>, endLine: Option<int>): (r: string)
    requires RangeError(startLine, endLine).None?
    ensures |r| <= |t|
  {
    var lines := SplitLines(t);
    var s := FirstLine(startLine);
    if s > |lines| then t
    else
      ConcatSplit(t);
      DropShorter(lines, s - 1, LastLine(endLine, |lines|));
      Concat(lines[..s - 1] + lines[LastLine(endLine, |lines|)..])
  }

  /** Leaving out a run of lines never lengthens the text. */
  lemma DropShorter(lines: seq<string>, lo: nat, hi: nat)
    requires lo <= hi <= |lines|
    ensures |Concat(lines[..lo] + lines[hi..])| <= |Concat(lines)|
  {
    assert lines == lines[..lo] + (lines[lo..hi] + lines[hi..]);
    ConcatAppend(lines[..lo], lines[lo..hi] + lines[hi..]);
    ConcatAppend(lines[lo..hi], lines[hi..]);
    ConcatAppend(lines[..lo], lines[hi..]);
  }

  function SuccessMessage(path: string, startLine: Option<int>, endLine: Option<int>): string
  {
    if startLine.None? then "Successfully removed lines 1 to " + OptToString(endLine) + " from " + path
    else if endLine.None? then "Successfully removed lines " + OptToString(startLine) + " to end from " + path
    else "Successfully removed lines " + OptToString(startLine) + " to " + OptToString(endLine) + " from " + path
  }

  /** The result of `remove_file` on the file system `fs`. */
  function Spec(fs: Files, path: string, startLine: Option<int>, endLine: Option<int>): (o: Outcome)
    ensures o.success <==> path in fs && RangeError(startLine, endLine).None?
    ensures !o.success ==> o.files == fs
    ensures o.success ==> o.files == fs[path := NewText(fs[path], startLine, endLine)]
  {
    if path !in fs then Outcome("Error: File " + path + " does not exist", false, fs)
    else if RangeError(startLine, endLine).Some? then Outcome(RangeError(startLine, endLine).value, false, fs)
    else
      var n := |SplitLines(fs[path])|;
      if FirstLine(startLine) > n then
        Outcome("No lines removed: start_line (" + OptToString(startLine) + ") exceeds file length ("
                + IntToString(n) + ")", true, fs)
      else
        Outcome(SuccessMessage(path, startLine, endLine), true, fs[path := NewText(fs[path], startLine, endLine)])
  }

  /** A bound below 1 or an inverted range is refused with its own message,
      checked in the order `remove_file` checks them. */
  lemma InvalidRangeMessage(s: int, e: int)
    requires s < 1 || e < 1 || s > e
    ensures RangeError(Some(s), Some(e)).Some?
    ensures s < 1 ==> RangeError(Some(s), Some(e)) == Some("Error: start_line must be at least 1")
    ensures 1 <= s && e < 1 ==> RangeError(Some(s), Some(e)) == Some("Error: end_line must be at least 1")
    ensures 1 <= s && 1 <= e ==> RangeError(Some(s), Some(e)) == Some("Error: start_line must be less than or equal to end_line")
  {
  }

  /** A start past the last line leaves the file as it was. */
  lemma StartPastEndIsNoOp(t: string, s: int, e: Option<int>)
    requires RangeError(Some(s), e).None? && s > |SplitLines(t)|
    ensures NewText(t, Some(s), e) == t
  {
  }

  /** Otherwise the inclusive range `[s, e]`, with `e` clamped to the file (an
      absent start meaning line 1 and an absent end the last line), is cut
      out: reading the file back gives exactly the lines before the range
      followed by the lines after it, in their original order. */
  lemma {:induction false} RemovesRange(t: string, startLine: Option<int>, endLine: Option<int>)
    requires RangeError(startLine, endLine).None?
    requires FirstLine(startLine) <= |SplitLines(t)|
    ensures var lines := SplitLines(t);
            var s := FirstLine(startLine);
            var e := LastLine(endLine, |lines|);
            && 1 <= s <= e <= |lines|
            && SplitLines(NewText(t, startLine, endLine)) == lines[..s - 1] + lines[e..]
            && |SplitLines(NewText(t, startLine, endLine))| == |lines| - (e - s + 1)
  {
    var lines := SplitLines(t);
    var s := FirstLine(startLine);
    var e := LastLine(endLine, |lines|);
    SplitLinesWellFormed(t);
    KeptLinesWellFormed(lines, s - 1, e);
    SplitConcat(lines[..s - 1] + lines[e..]);
  }

  /** Cutting `[lo, hi)` out of well-formed lines, with `lo` inside the file,
      leaves well-formed lines: every line before the cut was terminated. */
  lemma KeptLinesWellFormed(lines: seq<string>, lo: nat, hi: nat)
    requires WellFormed(lines) && lo < |lines| && lo <= hi <= |lines|
    ensures WellFormed(lines[..lo] + lines[hi..])
  {
    var r := lines[..lo] + lines[hi..];
    forall k | 0 <= k < |r| - 1 ensures Terminated(r[k]) {
      if k < lo { assert r[k] == lines[k]; } else { assert r[k] == lines[k - lo + hi]; }
    }
  }
}
