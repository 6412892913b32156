/**
 * `replace_file(target_file, start_line, end_line, content)`: create the file
 * empty if it is missing, validate the range, then `remove_file` the lines
 * `[start_line, end_line]` and `insert_file` the content at `start_line`.
 */
module ReplaceFile {
  import opened Wrappers
  import opened Text
  import opened Lines
  import opened Files
  import RemoveFile
  import InsertFile

  /** The file system once a missing target has been created empty. */
  function Created(fs: Files, path: string): (r: Files)
    ensures path in r && r[path] == (if path in fs then fs[path] else "")
  {
    if path in fs then fs else fs[path := ""]
  }

  /** `files` differs from `fs` at most in the file `path`, which it holds. */
  predicate OnlyTarget(fs: Files, path: string, files: Files)
  {
    files.Keys == fs.Keys + {path} && forall q :: q in fs && q != path ==> files[q] == fs[q]
  }

  /** The result of `replace_file` on the file system `fs`: it succeeds
      exactly for a valid range, and any outcome touches only the target. */
  function Spec(fs: Files, path: string, startLine: int, endLine: int, content: string): (o: Outcome)
    ensures o.success <==> 1 <= startLine <= endLine
    ensures OnlyTarget(fs, path, o.files)
  {
    var fs0 := Created(fs, path);
    assert OnlyTarget(fs, path, fs0);
    if startLine < 1 then Outcome("Error: start_line must be at least 1", false, fs0)
    else if endLine < 1 then Outcome("Error: end_line must be at least 1", false, fs0)
    else if startLine > endLine then Outcome("Error: start_line must be less than or equal to end_line", false, fs0)
    else
      assert RemoveFile.RangeError(Some(startLine), Some(endLine)).None?;
      var removed := RemoveFile.Spec(fs0, path, Some(startLine), Some(endLine));
      assert removed.success && OnlyTarget(fs, path, removed.files);
      if !removed.success then Outcome("Error during remove step: " + removed.message, false, removed.files)
      else
        var inserted := InsertFile.Spec(removed.files, path, content, Some(startLine));
        assert inserted.success && OnlyTarget(fs, path, inserted.files);
        if !inserted.success then Outcome("Error during insert step: " + inserted.message, false, inserted.files)
        else Outcome(SuccessMessage(path, startLine, endLine), true, inserted.files)
  }

  function SuccessMessage(path: string, startLine: int, endLine: int): string
  {
    "Successfully replaced lines " + IntToString(startLine) + " to " + IntToString(endLine) + " in " + path
  }

  /** The text `replace_file` leaves in a file whose text was `t`, for a valid range. */
  function NewText(t: string, s: int, e: int, content: string): (r: string)
    requires 1 <= s <= e
    ensures |r| >= |InsertFile.Block(content)|
  {
    InsertFile.NewText(Some(RemoveFile.NewText(t, Some(s), Some(e))), content, s)
  }

  /** A file's text after a successful `replace_file`. */
  function SuccessText(fs: Files, path: string, s: int, e: int, content: string): string
    requires 1 <= s <= e
  {
    NewText(Created(fs, path)[path], s, e, content)
  }

  /** A missing target is first created empty, whatever happens next. */
  lemma MissingIsCreatedEmpty(fs: Files, path: string, s: int, e: int, content: string)
    requires path !in fs
    ensures Spec(fs, path, s, e, content) == Spec(fs[path := ""], path, s, e, content)
    ensures path in Spec(fs, path, s, e, content).files
  {
  }

  /** A bad range fails with the matching message and writes nothing beyond
      the empty file a missing target gets. */
  lemma InvalidRangeFails(fs: Files, path: string, s: int, e: int, content: string)
    requires s < 1 || e < 1 || s > e
    ensures var o := Spec(fs, path, s, e, content);
            !o.success && o.files == Created(fs, path) && Some(o.message) == RemoveFile.RangeError(Some(s), Some(e))
  {
    RemoveFile.InvalidRangeMessage(s, e);
  }

  /** With a valid range neither step can fail: `replace_file` reports
      success, so its error-during-step messages never occur, and only the
      target's text changes. */
  lemma ValidRangeSucceeds(fs: Files, path: string, s: int, e: int, content: string)
    requires 1 <= s <= e
    ensures var o := Spec(fs, path, s, e, content);
            && o.success
            && o.message == SuccessMessage(path, s, e)
            && o.files == Created(fs, path)[path := SuccessText(fs, path, s, e, content)]
  {
    var fs0 := Created(fs, path);
    assert RemoveFile.RangeError(Some(s), Some(e)).None?;
    var t1 := RemoveFile.NewText(fs0[path], Some(s), Some(e));
    var removed := RemoveFile.Spec(fs0, path, Some(s), Some(e));
    assert removed.files == fs0[path := t1];
    var inserted := InsertFile.Spec(removed.files, path, content, Some(s));
    assert inserted.files == fs0[path := t1][path := InsertFile.NewText(Some(t1), content, s)];
  }

  /** A start line the replacement can reach without padding: inside the file,
      or right after a last line that ends with a newline. */
  predicate Fits(lines: seq<string>, startLine: int)
  {
    1 <= startLine <= |lines| || (startLine == |lines| + 1 && (lines == [] || Terminated(lines[|lines| - 1])))
  }

  /** The lines `[s, e]` (clamped to the file) replaced by the lines of `block`. */
  function Spliced(lines: seq<string>, s: int, e: int, block: string): (r: seq<string>)
    requires 1 <= s <= e && s <= |lines| + 1
    ensures |r| == |lines| - (RemoveFile.Min(e, |lines|) - s + 1) + |SplitLines(block)|
  {
    lines[..s - 1] + SplitLines(block) + lines[RemoveFile.Min(e, |lines|)..]
  }

  /** A range that ends before the last line: the lines after it survive. */
  lemma {:induction false} ReplaceInside(t: string, s: int, e: int, content: string)
    requires 1 <= s <= e < |SplitLines(t)|
    ensures SplitLines(NewText(t, s, e, content)) == Spliced(SplitLines(t), s, e, InsertFile.Block(content))
  {
    var lines := SplitLines(t);
    var t1 := RemoveFile.NewText(t, Some(s), Some(e));
    RemoveFile.RemovesRange(t, Some(s), Some(e));
    var l1 := SplitLines(t1);
    assert l1 == lines[..s - 1] + lines[e..];
    InsertFile.InsertInside(t1, content, s);
    assert l1[..s - 1] == lines[..s - 1];
    assert l1[s - 1..] == lines[e..];
  }

  /** A range that reaches the last line: the block ends the file. */
  lemma {:induction false} ReplaceToEnd(t: string, s: int, e: int, content: string)
    requires 1 <= s <= |SplitLines(t)| <= e
    ensures SplitLines(NewText(t, s, e, content)) == Spliced(SplitLines(t), s, e, InsertFile.Block(content))
  {
    var lines := SplitLines(t);
    var b := InsertFile.Block(content);
    var t1 := RemoveFile.NewText(t, Some(s), Some(e));
    RemovedToEnd(t, s, e);
    AppendedToEnd(t, s, e, content);
    SplitAppend(t1, b);
    assert lines[RemoveFile.Min(e, |lines|)..] == [];
  }

  /** Through the last line, the new text is what is left before `s`, then the block. */
  lemma AppendedToEnd(t: string, s: int, e: int, content: string)
    requires 1 <= s <= |SplitLines(t)| <= e
    ensures NewText(t, s, e, content) == RemoveFile.NewText(t, Some(s), Some(e)) + InsertFile.Block(content)
  {
    var t1 := RemoveFile.NewText(t, Some(s), Some(e));
    RemovedToEnd(t, s, e);
    InsertFile.InsertAtEnd(t1, content);
  }

  /** Removing through the last line leaves the text of the lines before `s`. */
  lemma RemovedToEnd(t: string, s: int, e: int)
    requires 1 <= s <= |SplitLines(t)| <= e
    ensures var t1 := RemoveFile.NewText(t, Some(s), Some(e));
            && SplitLines(t1) == SplitLines(t)[..s - 1]
            && |SplitLines(t1)| + 1 == s
            && (t1 == "" || Terminated(t1))
  {
    var lines := SplitLines(t);
    RemoveFile.RemovesRange(t, Some(s), Some(e));
    SplitLinesWellFormed(t);
    PrefixText(lines, s - 1);
    assert lines[RemoveFile.LastLine(Some(e), |lines|)..] == [];
    assert lines[..s - 1] + [] == lines[..s - 1];
  }

  /** A start right after a last line that ends with a newline: a pure append. */
  lemma {:induction false} ReplaceAfterEnd(t: string, s: int, e: int, content: string)
    requires 1 <= s <= e && s == |SplitLines(t)| + 1
    requires SplitLines(t) == [] || Terminated(SplitLines(t)[s - 2])
    ensures NewText(t, s, e, content) == t + InsertFile.Block(content)
    ensures SplitLines(NewText(t, s, e, content)) == Spliced(SplitLines(t), s, e, InsertFile.Block(content))
  {
    var lines := SplitLines(t);
    var b := InsertFile.Block(content);
    calc {
      NewText(t, s, e, content);
      { RemoveFile.StartPastEndIsNoOp(t, s, Some(e)); }
      InsertFile.NewText(Some(t), content, s);
      { InsertFile.InsertAtEnd(t, content); TextEndsLine(t); }
      t + b;
    }
    TextEndsLine(t);
    calc {
      SplitLines(t + b);
      { SplitAppend(t, b); }
      lines + SplitLines(b);
      { assert lines[..s - 1] == lines && lines[RemoveFile.Min(e, |lines|)..] == []; }
      Spliced(lines, s, e, b);
    }
  }

  /** The main property: for a start line that fits, the file read back holds
      the old lines before `s`, then the lines of the (newline-terminated)
      content, then the old lines after `e`. */
  lemma ReplacesLines(t: string, s: int, e: int, content: string)
    requires s <= e && Fits(SplitLines(t), s)
    ensures SplitLines(NewText(t, s, e, content)) == Spliced(SplitLines(t), s, e, InsertFile.Block(content))
  {
    var n := |SplitLines(t)|;
    if e < n {
      ReplaceInside(t, s, e, content);
    } else if s <= n {
      ReplaceToEnd(t, s, e, content);
    } else {
      ReplaceAfterEnd(t, s, e, content);
    }
  }

  /** A start line beyond the file: the old text is kept whole and the block
      follows a run of newlines, as `insert_file` pads. */
  lemma PastEndPads(t: string, s: int, e: int, content: string)
    requires 1 <= s <= e && s > |SplitLines(t)| + 1
    ensures NewText(t, s, e, content) == t + InsertFile.Newlines(s - 1 - |SplitLines(t)|) + InsertFile.Block(content)
  {
    RemoveFile.StartPastEndIsNoOp(t, s, Some(e));
    InsertFile.InsertPastEnd(t, content, s);
  }

  /** A start line just after a last line that lacks its newline: nothing is
      removed, the old last line is completed and the block follows it. */
  lemma AppendAfterUnterminated(t: string, s: int, e: int, content: string)
    requires 1 <= s <= e && t != "" && !Terminated(t) && s == |SplitLines(t)| + 1
    ensures NewText(t, s, e, content) == t + "\n" + InsertFile.Block(content)
  {
    RemoveFile.StartPastEndIsNoOp(t, s, Some(e));
    InsertFile.InsertAtEnd(t, content);
  }
}
