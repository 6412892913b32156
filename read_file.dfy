/**
 * `read_file(target_file, start, end, should_read_entire_file)`: the file's
 * lines, each prefixed with its 1-based number and ": ", either all of them
 * or an inclusive range of at most 250 that starts inside the file (the end
 * is clamped). The result is `(content, success)`.
 */
module ReadFile {
  import opened Wrappers
  import opened Text
  import opened Lines
  import opened Files

  /** What `read_file` returns: the text (numbered lines or an error message) and the success flag. */
  datatype Read = Read(content: string, success: bool)

  /** The most lines one ranged read may ask for. */
  const MaxLines: int := 250

  /** One output line, `f"{i}: {line}"`. */
  function Number(i: int, line: string): (r: string)
    ensures |r| > |line| && r[|r| - |line|..] == line
  {
    IntToString(i) + ": " + line
  }

  /** The lines, numbered consecutively from `first`. */
  function NumberFrom(ls: seq<string>, first: int): (r: seq<string>)
    ensures |r| == |ls|
    ensures forall k :: 0 <= k < |ls| ==> r[k] == Number(first + k, ls[k])
  {
    seq(|ls|, k requires 0 <= k < |ls| => Number(first + k, ls[k]))
  }

  /** The validation of an explicit range, in the order `read_file` checks it. */
  function RangeError(start: int, end: int): (r: Option<string>)
    ensures r == None <==> 1 <= start <= end && end - start + 1 <= MaxLines
  {
    if start < 1 then Some("Error: start_line_one_indexed must be at least 1")
    else if end < start then Some("Error: end_line_one_indexed_inclusive must be >= start_line_one_indexed")
    else if end - start + 1 > MaxLines then Some("Error: Cannot read more than 250 lines at once")
    else None
  }

  /** The whole file is read when asked for, or when either bound is missing. */
  predicate Whole(start: Option<int>, end: Option<int>, entire: bool)
  {
    entire || start.None? || end.None?
  }

  /** The lines a valid range selects: from `start` up to `end` clamped to the last line. */
  function Selected(ls: seq<string>, start: int, end: int): (r: seq<string>)
    requires 1 <= start <= |ls| && start <= end
    ensures |r| == (if end < |ls| then end else |ls|) - start + 1
    ensures forall k :: 0 <= k < |r| ==> r[k] == ls[start - 1 + k]
  {
    ls[start - 1..if end < |ls| then end else |ls|]
  }

  function ReadFile(fs: Files, path: string, start: Option<int>, end: Option<int>, entire: bool): (r: Read)
    ensures path !in fs ==> r == Read("Error: File " + path + " does not exist", false)
    ensures path in fs && Whole(start, end, entire) ==> r.success
    ensures path in fs && !Whole(start, end, entire) ==>
              (r.success <==> RangeError(start.value, end.value) == None
                              && start.value <= |SplitLines(fs[path])|)
    ensures path in fs && !Whole(start, end, entire) && RangeError(start.value, end.value).Some? ==>
              r.content == RangeError(start.value, end.value).value
    ensures path in fs && !Whole(start, end, entire) && RangeError(start.value, end.value) == None
            && start.value > |SplitLines(fs[path])| ==>
              r.content == "Error: start_line_one_indexed (" + IntToString(start.value)
                           + ") exceeds file length (" + IntToString(|SplitLines(fs[path])|) + ")"
  {
    if path !in fs then Read("Error: File " + path + " does not exist", false)
    else
      var ls := SplitLines(fs[path]);
      if Whole(start, end, entire) then Read(Concat(NumberFrom(ls, 1)), true)
      else if RangeError(start.value, end.value).Some? then Read(RangeError(start.value, end.value).value, false)
      else if start.value - 1 >= |ls| then
        Read("Error: start_line_one_indexed (" + IntToString(start.value) + ") exceeds file length ("
             + IntToString(|ls|) + ")", false)
      else Read(Concat(NumberFrom(Selected(ls, start.value, end.value), start.value)), true)
  }

  /** A decimal number is written with digits and a sign only. */
  lemma {:induction false} NatNoNewline(n: nat)
    ensures forall k :: 0 <= k < |NatToString(n)| ==> NatToString(n)[k] != NL
    decreases n
  {
    if n >= 10 {
      NatNoNewline(n / 10);
    }
  }

  lemma IntNoNewline(i: int)
    ensures forall k :: 0 <= k < |IntToString(i)| ==> IntToString(i)[k] != NL
  {
    if i < 0 {
      NatNoNewline(-i);
    } else {
      NatNoNewline(i);
    }
  }

  /** Numbering keeps a line a line, and keeps it terminated exactly when it was. */
  lemma NumberIsLine(i: int, line: string)
    requires IsLine(line)
    ensures IsLine(Number(i, line))
    ensures Terminated(Number(i, line)) <==> Terminated(line)
  {
    var p := IntToString(i) + ": ";
    IntNoNewline(i);
    assert Number(i, line) == p + line;
    forall k | 0 <= k < |p| ensures p[k] != NL {
      if k < |IntToString(i)| {
        assert p[k] == IntToString(i)[k];
      }
    }
  }

  lemma NumberedWellFormed(ls: seq<string>, first: int)
    requires WellFormed(ls)
    ensures WellFormed(NumberFrom(ls, first))
  {
    forall k | 0 <= k < |ls| ensures IsLine(NumberFrom(ls, first)[k])
      && (k < |ls| - 1 ==> Terminated(NumberFrom(ls, first)[k])) {
      NumberIsLine(first + k, ls[k]);
    }
  }

  /** Read back line by line, a whole read is every line of the file, numbered from 1. */
  lemma WholeRead(fs: Files, path: string, start: Option<int>, end: Option<int>, entire: bool)
    requires path in fs && Whole(start, end, entire)
    ensures var r := ReadFile(fs, path, start, end, entire);
            var ls := SplitLines(fs[path]);
            var out := SplitLines(r.content);
            r.success && |out| == |ls|
            && forall k :: 0 <= k < |ls| ==> out[k] == IntToString(k + 1) + ": " + ls[k]
  {
    var ls := SplitLines(fs[path]);
    SplitLinesWellFormed(fs[path]);
    NumberedWellFormed(ls, 1);
    SplitConcat(NumberFrom(ls, 1));
  }

  /** Numbering adds no line breaks: a whole read holds exactly as many newlines
      as the file, so a line count taken from it is the file's own. */
  lemma WholeReadNewlines(fs: Files, path: string)
    requires path in fs
    ensures CountChar(ReadFile(fs, path, None, None, false).content, NL) == CountChar(fs[path], NL)
  {
    var t := fs[path];
    assert ReadFile(fs, path, None, None, false).content == Concat(NumberFrom(SplitLines(t), 1));
    NumberedNewlines(t);
  }

  /** A missing file reads as its error message, which holds only the newlines
      of the path: a plan checked against it sees one line more than those. */
  lemma MissingReadNewlines(fs: Files, path: string)
    requires path !in fs
    ensures CountChar(ReadFile(fs, path, None, None, false).content, NL) == CountChar(path, NL)
  {
    MessageNewlines(path);
  }

  lemma MessageNewlines(path: string)
    ensures CountChar("Error: File " + path + " does not exist", NL) == CountChar(path, NL)
  {
    var head, tail := "Error: File ", " does not exist";
    assert forall k :: 0 <= k < |head| ==> head[k] != NL;
    assert forall k :: 0 <= k < |tail| ==> tail[k] != NL;
    CountBetween(head, path, tail);
  }

  lemma CountBetween(head: string, mid: string, tail: string)
    requires CountChar(head, NL) == 0 && CountChar(tail, NL) == 0
    ensures CountChar(head + mid + tail, NL) == CountChar(mid, NL)
  {
    CountCharAppend(head, mid, NL);
    CountCharAppend(head + mid, tail, NL);
  }

  lemma NumberedNewlines(t: string)
    ensures CountChar(Concat(NumberFrom(SplitLines(t), 1)), NL) == CountChar(t, NL)
  {
    var ls := SplitLines(t);
    var c := Concat(NumberFrom(ls, 1));
    SplitLinesWellFormed(t);
    NumberedShape(ls, 1);
    assert (t != "" && t[|t| - 1] != NL) == (c != "" && c[|c| - 1] != NL) by {
      if t != "" {
        LastLineTerminated(t);
      }
    }
    LineCount(t);
    LineCount(c);
  }

  /** The numbered text reads back as as many lines as there were, its last
      line ending in a newline exactly when the original last line did. */
  lemma NumberedShape(ls: seq<string>, first: int)
    requires WellFormed(ls)
    ensures var c := Concat(NumberFrom(ls, first));
            && |SplitLines(c)| == |ls|
            && (ls != [] ==> c != "" && (c[|c| - 1] == NL <==> Terminated(ls[|ls| - 1])))
  {
    var ns := NumberFrom(ls, first);
    var c := Concat(ns);
    NumberedWellFormed(ls, first);
    SplitConcat(ns);
    if ls != [] {
      assert SplitLines(c) != [];
      LastLineTerminated(c);
      NumberIsLine(first + |ls| - 1, ls[|ls| - 1]);
    }
  }

  /** A successful ranged read is lines `start` to `min(end, length)`, each with its
      own line number, at most 250 of them. */
  lemma RangedRead(fs: Files, path: string, start: int, end: int)
    requires path in fs
    requires ReadFile(fs, path, Some(start), Some(end), false).success
    ensures var ls := SplitLines(fs[path]);
            var last := if end < |ls| then end else |ls|;
            var out := SplitLines(ReadFile(fs, path, Some(start), Some(end), false).content);
            1 <= start <= last <= end && |out| == last - start + 1 <= MaxLines
            && forall k :: 0 <= k < |out| ==> out[k] == IntToString(start + k) + ": " + ls[start - 1 + k]
  {
    var ls := SplitLines(fs[path]);
    SplitLinesWellFormed(fs[path]);
    var sel := Selected(ls, start, end);
    WellFormedSuffix(ls, start - 1);
    WellFormedPrefix(ls[start - 1..], |sel|);
    assert sel == ls[start - 1..][..|sel|];
    NumberedWellFormed(sel, start);
    SplitConcat(NumberFrom(sel, start));
  }
}
