/**
 * `insert_file(target_file, content, line_number)`: without a line number the
 * file is overwritten with `content`; with one, `content` (newline-terminated)
 * becomes line `line_number`, the file being padded with blank lines first
 * when it is shorter, or created as needed.
 */
module InsertFile {
  import opened Wrappers
  import opened Text
  import opened Lines
  import opened Files

  /** `content` with a final newline added when it has none. */
  function Block(content: string): (r: string)
    ensures Terminated(r)
    ensures Terminated(content) ==> r == content
    ensures !Terminated(content) ==> r == content + "\n"
  {
    if Terminated(content) then content else content + "\n"
  }

  /** `n` blank lines. */
  function Blanks(n: nat): (r: seq<string>)
    ensures |r| == n && forall k :: 0 <= k < n ==> r[k] == "\n"
  {
    seq(n, _ => "\n")
  }

  /** The lines a missing file starts from: `[''] * max(0, line_number - 1)`. */
  function Placeholders(n: int): (r: seq<string>)
    ensures |r| == (if n > 1 then n - 1 else 0)
    ensures forall k :: 0 <= k < |r| ==> r[k] == ""
  {
    seq(if n > 1 then n - 1 else 0, _ => "")
  }

  /** `lines` padded with blank lines up to `position` entries. */
  function Padded(lines: seq<string>, position: nat): (r: seq<string>)
  {
    if |lines| < position then lines + Blanks(position - |lines|) else lines
  }

  /** `lines` with its last entry terminated if it is not. */
  function TerminateLast(lines: seq<string>): (r: seq<string>)
  {
    if |lines| > 0 && !Terminated(lines[|lines| - 1]) then lines[..|lines| - 1] + [lines[|lines| - 1] + "\n"]
    else lines
  }

  /** The line list `insert_file` writes: `block` at index `position` of the padded lines. */
  function InsertAt(lines: seq<string>, position: nat, block: string): (r: seq<string>)
    ensures |r| == (if position < |lines| then |lines| else position) + 1
    ensures r[position] == block
    ensures |Concat(r)| >= |Concat(lines)| + |block|
  {
    var p := Padded(lines, position);
    PaddedLonger(lines, position);
    if position == |p| then
      TerminateLastLonger(p);
      ConcatAppend(TerminateLast(p), [block]);
      ConcatSingle(block);
      TerminateLast(p) + [block]
    else
      assert p == p[..position] + p[position..];
      ConcatAppend(p[..position], p[position..]);
      ConcatAppend(p[..position] + [block], p[position..]);
      ConcatAppend(p[..position], [block]);
      ConcatSingle(block);
      p[..position] + [block] + p[position..]
  }

  lemma ConcatSplitSome(before: Option<string>)
    ensures before.Some? ==> Concat(SplitLines(before.value)) == before.value
  {
    if before.Some? {
      ConcatSplit(before.value);
    }
  }

  /** Padding only adds text. */
  lemma PaddedLonger(lines: seq<string>, position: nat)
    ensures |Concat(Padded(lines, position))| >= |Concat(lines)|
  {
    if |lines| < position {
      ConcatAppend(lines, Blanks(position - |lines|));
    }
  }

  /** Terminating the last line only adds text. */
  lemma TerminateLastLonger(lines: seq<string>)
    ensures |Concat(TerminateLast(lines))| >= |Concat(lines)|
  {
    if |lines| > 0 && !Terminated(lines[|lines| - 1]) {
      ConcatTerminateLast(lines);
    }
  }

  /** The text `insert_file` writes at line `n >= 1`, given the file's old
      text (None when the file does not exist). */
  function NewText(before: Option<string>, content: string, n: int): (r: string)
    requires n >= 1
    ensures before.Some? ==> |r| >= |before.value| + |Block(content)|
  {
    var lines := if before.Some? then SplitLines(before.value) else Placeholders(n);
    ConcatSplitSome(before);
    Concat(InsertAt(lines, n - 1, Block(content)))
  }

  /** The result of `insert_file` on the file system `fs`. */
  function Spec(fs: Files, path: string, content: string, lineNumber: Option<int>): (o: Outcome)
    ensures o.success <==> lineNumber.None? || lineNumber.value >= 1
    ensures !o.success ==> o.files == fs
    ensures lineNumber.None? ==> o.files == fs[path := content]
    ensures o.success && lineNumber.Some? ==>
              o.files == fs[path := NewText(if path in fs then Some(fs[path]) else None, content, lineNumber.value)]
  {
    if lineNumber.None? then
      Outcome("Successfully " + (if path in fs then "replaced" else "created") + " " + path, true,
              fs[path := content])
    else if lineNumber.value < 1 then Outcome("Error: Line number must be at least 1", false, fs)
    else
      var n := lineNumber.value;
      var operation := if path in fs then "inserted into" else "created and inserted into";
      Outcome("Successfully " + operation + " " + path + " at line " + IntToString(n), true,
              fs[path := NewText(if path in fs then Some(fs[path]) else None, content, n)])
  }

  /** Inside an existing file, the block's lines come in at line `n` and every
      other line keeps its order: those before stay put, the others move down. */
  lemma {:induction false} InsertInside(t: string, content: string, n: int)
    requires 1 <= n <= |SplitLines(t)|
    ensures var lines := SplitLines(t);
            SplitLines(NewText(Some(t), content, n)) == lines[..n - 1] + SplitLines(Block(content)) + lines[n - 1..]
  {
    var lines := SplitLines(t);
    var b := Block(content);
    assert InsertAt(lines, n - 1, b) == lines[..n - 1] + [b] + lines[n - 1..];
    ConcatAppend(lines[..n - 1] + [b], lines[n - 1..]);
    ConcatAppend(lines[..n - 1], [b]);
    ConcatSingle(b);
    SplitLinesWellFormed(t);
    SplitAround(lines, n - 1, b);
  }

  /** At the line right after the end, the block is appended; a last line
      without its newline gets one first, so the block starts a line of its own. */
  lemma {:induction false} InsertAtEnd(t: string, content: string)
    ensures NewText(Some(t), content, |SplitLines(t)| + 1)
            == t + (if t != "" && !Terminated(t) then "\n" else "") + Block(content)
  {
    var lines := SplitLines(t);
    var b := Block(content);
    assert Padded(lines, |lines|) == lines;
    assert InsertAt(lines, |lines|, b) == TerminateLast(lines) + [b];
    ConcatAppend(TerminateLast(lines), [b]);
    ConcatSingle(b);
    TerminateLastText(t);
  }

  /** Completing the last line adds one newline to an unterminated text, and nothing otherwise. */
  lemma TerminateLastText(t: string)
    ensures Concat(TerminateLast(SplitLines(t))) == t + (if t != "" && !Terminated(t) then "\n" else "")
  {
    var lines := SplitLines(t);
    ConcatSplit(t);
    if t != "" {
      LastLineTerminated(t);
      if !Terminated(t) {
        ConcatTerminateLast(lines);
      } else {
        assert TerminateLast(lines) == lines;
        assert t + "" == t;
      }
    }
  }

  lemma ConcatTerminateLast(lines: seq<string>)
    requires |lines| > 0 && !Terminated(lines[|lines| - 1])
    ensures Concat(TerminateLast(lines)) == Concat(lines) + "\n"
  {
    var init, last := lines[..|lines| - 1], lines[|lines| - 1];
    assert lines == init + [last];
    ConcatSnoc(init, last);
    ConcatSnoc(init, last + "\n");
  }

  /** Past the end, every missing line is a blank line; when the old last line
      lacks its newline, the first blank line only completes it, so the block
      lands one line earlier than asked. */
  lemma {:induction false} InsertPastEnd(t: string, content: string, n: int)
    requires n > |SplitLines(t)| + 1
    ensures NewText(Some(t), content, n) == t + Newlines(n - 1 - |SplitLines(t)|) + Block(content)
  {
    var lines := SplitLines(t);
    var b := Block(content);
    var pad := Blanks(n - 1 - |lines|);
    assert Padded(lines, n - 1) == lines + pad;
    assert TerminateLast(lines + pad) == lines + pad by {
      assert (lines + pad)[|lines + pad| - 1] == "\n";
    }
    ConcatAppend(lines + pad, [b]);
    ConcatAppend(lines, pad);
    ConcatSingle(b);
    ConcatSplit(t);
    ConcatBlanks(n - 1 - |lines|);
  }

  /** `n` newline characters. */
  function Newlines(n: nat): (r: string)
    ensures |r| == n && forall k :: 0 <= k < n ==> r[k] == '\n'
  {
    seq(n, _ => '\n')
  }

  lemma {:induction false} ConcatBlanks(n: nat)
    ensures Concat(Blanks(n)) == Newlines(n)
    decreases n
  {
    if n > 0 {
      assert Blanks(n) == [Blanks(n)[0]] + Blanks(n - 1);
      ConcatCons("\n", Blanks(n - 1));
      ConcatBlanks(n - 1);
      assert Newlines(n) == "\n" + Newlines(n - 1);
    }
  }

  /** A missing file gets the bare block for line 1, and for any later line a
      single newline and then the block, so the block is line 2 whatever `n`
      was asked: the placeholders are empty strings, and only the last one is
      completed by a newline. */
  lemma {:induction false} InsertIntoMissing(content: string, n: int)
    requires n >= 1
    ensures NewText(None, content, n) == (if n == 1 then "" else "\n") + Block(content)
  {
    var b := Block(content);
    var ph := Placeholders(n);
    assert Padded(ph, n - 1) == ph;
    assert InsertAt(ph, n - 1, b) == TerminateLast(ph) + [b];
    ConcatAppend(TerminateLast(ph), [b]);
    ConcatSingle(b);
    if n == 1 {
      assert TerminateLast(ph) == [];
    } else {
      var init := ph[..|ph| - 1];
      assert ph == init + [""];
      assert "" + "\n" == "\n";
      assert TerminateLast(ph) == init + ["\n"];
      ConcatEmpties(init);
      ConcatAppend(init, ["\n"]);
      ConcatSingle("\n");
    }
  }

  lemma {:induction false} ConcatEmpties(ls: seq<string>)
    requires forall k :: 0 <= k < |ls| ==> ls[k] == ""
    ensures Concat(ls) == ""
    decreases |ls|
  {
    if |ls| > 0 {
      ConcatEmpties(ls[1..]);
    }
  }
}
