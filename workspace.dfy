/**
 * The file-editing utilities as operations on a workspace whose files are
 * updated in place: each method reads the target's lines, edits the line
 * list step by step as the utility does, and writes the text back.
 */
module FileTools {
  import opened Wrappers
  import opened Text
  import opened Lines
  import opened Files
  import Remove = RemoveFile
  import Insert = InsertFile
  import Replace = ReplaceFile

  /** The result of `delete_file` on the file system `fs`. */
  function DeleteSpec(fs: Files, path: string): (o: Outcome)
    ensures o.success <==> path in fs
    ensures o.files == fs - {path}
  {
    if path !in fs then Outcome("File " + path + " does not exist", false, fs)
    else Outcome("Successfully deleted " + path, true, fs - {path})
  }

  /** `insert_file`'s edit of the line list: pad with blank lines one at a time
      up to `position`, then put `block` there, terminating a last line it follows. */
  method InsertLines(original: seq<string>, position: nat, block: string) returns (lines: seq<string>)
    ensures lines == Insert.InsertAt(original, position, block)
  {
    lines := original;
    while |lines| < position
      invariant |original| <= |lines|
      invariant |lines| <= position || lines == original
      invariant lines == original + Insert.Blanks(|lines| - |original|)
      decreases position - |lines|
    {
      lines := lines + ["\n"];
    }
    assert lines == Insert.Padded(original, position);
    if position == |lines| {
      if |lines| > 0 && !Terminated(lines[|lines| - 1]) {
        lines := lines[|lines| - 1 := lines[|lines| - 1] + "\n"];
      }
      assert lines == Insert.TerminateLast(Insert.Padded(original, position));
      lines := lines + [block];
    } else {
      lines := lines[..position] + [block] + lines[position..];
    }
  }

  class Workspace {
    /** Path to text of every file that exists. */
    var files: Files

    constructor(initial: Files)
      ensures files == initial
    {
      files := initial;
    }

    /** `remove_file(path, start_line, end_line)`. */
    method RemoveFile(path: string, startLine: Option<int>, endLine: Option<int>) returns (message: string, success: bool)
      modifies this
      ensures Outcome(message, success, files) == Remove.Spec(old(files), path, startLine, endLine)
    {
      if path !in files {
        return "Error: File " + path + " does not exist", false;
      }
      var err := Remove.RangeError(startLine, endLine);
      if err.Some? {
        return err.value, false;
      }
      var lines := SplitLines(files[path]);
      var startIdx := if startLine.Some? then startLine.value - 1 else 0;
      var endIdx := if endLine.Some? then endLine.value - 1 else |lines| - 1;
      if startIdx >= |lines| {
        return "No lines removed: start_line (" + Remove.OptToString(startLine) + ") exceeds file length ("
               + IntToString(|lines|) + ")", true;
      }
      if endIdx > |lines| - 1 {
        endIdx := |lines| - 1;
      }
      lines := lines[..startIdx] + lines[endIdx + 1..];
      files := files[path := Concat(lines)];
      message := Remove.SuccessMessage(path, startLine, endLine);
      success := true;
    }

    /** `insert_file(path, content, line_number)`, padding the line list one
        blank line at a time as the utility's loop does. */
    method InsertFile(path: string, content: string, lineNumber: Option<int>) returns (message: string, success: bool)
      modifies this
      ensures Outcome(message, success, files) == Insert.Spec(old(files), path, content, lineNumber)
    {
      var existed := path in files;
      if lineNumber.None? {
        var operation := if existed then "replaced" else "created";
        files := files[path := content];
        return "Successfully " + operation + " " + path, true;
      }
      var n := lineNumber.value;
      var lines: seq<string>;
      var operation: string;
      if !existed {
        lines := Insert.Placeholders(n);
        operation := "created and inserted into";
      } else {
        lines := SplitLines(files[path]);
        operation := "inserted into";
      }
      if n < 1 {
        return "Error: Line number must be at least 1", false;
      }
      var block := if Terminated(content) then content else content + "\n";
      assert block == Insert.Block(content);
      lines := InsertLines(lines, n - 1, block);
      files := files[path := Concat(lines)];
      message := "Successfully " + operation + " " + path + " at line " + IntToString(n);
      success := true;
    }

    /** `replace_file(path, start_line, end_line, content)`: the two steps
        run on this workspace, one after the other. */
    method ReplaceFile(path: string, startLine: int, endLine: int, content: string) returns (message: string, success: bool)
      modifies this
      ensures Outcome(message, success, files) == Replace.Spec(old(files), path, startLine, endLine, content)
    {
      if path !in files {
        files := files[path := ""];
      }
      if startLine < 1 {
        return "Error: start_line must be at least 1", false;
      }
      if endLine < 1 {
        return "Error: end_line must be at least 1", false;
      }
      if startLine > endLine {
        return "Error: start_line must be less than or equal to end_line", false;
      }
      var removeMessage, removeSuccess := RemoveFile(path, Some(startLine), Some(endLine));
      if !removeSuccess {
        return "Error during remove step: " + removeMessage, false;
      }
      var insertMessage, insertSuccess := InsertFile(path, content, Some(startLine));
      if !insertSuccess {
        return "Error during insert step: " + insertMessage, false;
      }
      message := "Successfully replaced lines " + IntToString(startLine) + " to " + IntToString(endLine) + " in " + path;
      success := true;
    }

    /** `delete_file(path)`. */
    method DeleteFile(path: string) returns (message: string, success: bool)
      modifies this
      ensures Outcome(message, success, files) == DeleteSpec(old(files), path)
    {
      if path !in files {
        return "File " + path + " does not exist", false;
      }
      files := files - {path};
      message := "Successfully deleted " + path;
      success := true;
    }
  }
}
