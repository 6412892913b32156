/**
 * The edit sub-flow's plan: `AnalyzeAndPlanNode` bounds-checks each edit
 * operation against the file's line count, `ApplyChangesNode` sorts the
 * operations by descending `start_line` and runs `replace_file` on each in
 * that order. Applied bottom-up, non-overlapping operations act as if each
 * were spliced into the original file at its original line numbers.
 */
module EditPlan {
  import opened Wrappers
  import opened Text
  import opened Lines
  import opened Files
  import opened StableSort
  import Remove = RemoveFile
  import Insert = InsertFile
  import Replace = ReplaceFile
  import FileTools

  /** One planned edit: replace lines `[startLine, endLine]` by `replacement`. */
  datatype EditOp = EditOp(startLine: int, endLine: int, replacement: string)

  /** The sort key of `ApplyChangesNode.prep`. */
  function StartLine(op: EditOp): int
  {
    op.startLine
  }

  /** `len(file_content.split('\n'))`: the plan's notion of the file's line count. */
  function TotalLines(content: string): (n: nat)
    ensures n == CountChar(content, NL) + 1
  {
    SplitCount(content, NL);
    |Split(content, [NL])|
  }

  /** Why the plan validation rejects `op`, in the order the checks run. */
  function OpError(op: EditOp, total: int): Option<string>
  {
    if !(1 <= op.startLine <= total) then Some("start_line out of range: " + IntToString(op.startLine))
    else if !(1 <= op.endLine <= total) then Some("end_line out of range: " + IntToString(op.endLine))
    else if op.startLine > op.endLine then
      Some("start_line > end_line: " + IntToString(op.startLine) + " > " + IntToString(op.endLine))
    else None
  }

  predicate ValidOp(op: EditOp, total: int)
  {
    1 <= op.startLine <= op.endLine <= total
  }

  /** The first failing check over the operations, as the validation loop stops at it. */
  function CheckOps(ops: seq<EditOp>, total: int): (err: Option<string>)
    ensures err.None? <==> forall k :: 0 <= k < |ops| ==> ValidOp(ops[k], total)
    ensures err.Some? ==> exists k :: 0 <= k < |ops| && OpError(ops[k], total) == err
    decreases |ops|
  {
    if ops == [] then None
    else if OpError(ops[0], total).Some? then OpError(ops[0], total)
    else
      var rest := CheckOps(ops[1..], total);
      assert forall k :: 1 <= k < |ops| ==> ops[k] == ops[1..][k - 1];
      rest
  }

  /** An operation the validation accepts lies inside a file with `n` newline
      characters, or starts just after its last line when that line is
      terminated: exactly the start lines `replace_file` reaches without padding. */
  lemma ValidatedFits(t: string, op: EditOp)
    requires ValidOp(op, CountChar(t, NL) + 1)
    ensures Replace.Fits(SplitLines(t), op.startLine)
  {
    LineCount(t);
    if t != "" {
      LastLineTerminated(t);
    }
  }

  /** Two operations whose ranges do not share a line. */
  predicate Apart(a: EditOp, b: EditOp)
  {
    a.endLine < b.startLine || b.endLine < a.startLine
  }

  /** Operations in application order, each strictly above the next. */
  predicate Chain(ops: seq<EditOp>)
  {
    && (forall k :: 0 <= k < |ops| ==> 1 <= ops[k].startLine <= ops[k].endLine)
    && (forall k :: 0 <= k < |ops| - 1 ==> ops[k + 1].endLine < ops[k].startLine)
  }

  lemma ChainTail(ops: seq<EditOp>)
    requires ops != [] && Chain(ops)
    ensures Chain(ops[1..])
    ensures |ops| > 1 ==> ops[1].startLine <= ops[1].endLine < ops[0].startLine
  {
    assert forall k :: 0 <= k < |ops| - 1 ==> ops[1..][k] == ops[k + 1];
  }

  function OpBlock(op: EditOp): string
  {
    Insert.Block(op.replacement)
  }

  /** The reference result: every operation spliced into the original lines
      at its original numbering. The highest operation cuts the file; the
      ones below it see only the lines under its start, numbered as before. */
  function SpliceAll(lines: seq<string>, ops: seq<EditOp>): (r: seq<string>)
    requires Chain(ops) && (ops != [] ==> ops[0].startLine <= |lines| + 1)
    ensures ops == [] ==> r == lines
    ensures ops != [] ==> var low := ops[|ops| - 1].startLine - 1;
                          low <= |lines| && low <= |r| && r[..low] == lines[..low]
    decreases |ops|
  {
    if ops == [] then lines
    else
      ChainTail(ops);
      var op := ops[0];
      SpliceAll(lines[..op.startLine - 1], ops[1..]) + SplitLines(OpBlock(op))
        + lines[Remove.Min(op.endLine, |lines|)..]
  }

  /** The operations applied one after the other to the line list. */
  function ApplyLines(lines: seq<string>, ops: seq<EditOp>): (r: seq<string>)
    requires Chain(ops) && (ops != [] ==> ops[0].startLine <= |lines| + 1)
    decreases |ops|
  {
    if ops == [] then lines
    else
      ChainTail(ops);
      var op := ops[0];
      ApplyLines(Replace.Spliced(lines, op.startLine, op.endLine, OpBlock(op)), ops[1..])
  }

  /** Edits confined to the first `|pre|` lines do not see what follows. */
  lemma {:induction false} Locality(pre: seq<string>, post: seq<string>, ops: seq<EditOp>)
    requires Chain(ops) && (ops != [] ==> ops[0].endLine <= |pre|)
    ensures ApplyLines(pre + post, ops) == ApplyLines(pre, ops) + post
    decreases |ops|
  {
    if ops != [] {
      ChainTail(ops);
      var op := ops[0];
      var s, e, b := op.startLine, op.endLine, OpBlock(op);
      var spliced := Replace.Spliced(pre, s, e, b);
      assert Replace.Spliced(pre + post, s, e, b) == spliced + post by {
        assert (pre + post)[..s - 1] == pre[..s - 1];
        assert (pre + post)[Remove.Min(e, |pre + post|)..] == pre[e..] + post;
      }
      Locality(spliced, post, ops[1..]);
    }
  }

  /** The key property: applying a chain of operations from the bottom of
      the file upwards equals splicing each into the original numbering. */
  lemma {:induction false} BottomUpIsSplice(lines: seq<string>, ops: seq<EditOp>)
    requires Chain(ops) && (ops != [] ==> ops[0].startLine <= |lines| + 1)
    ensures ApplyLines(lines, ops) == SpliceAll(lines, ops)
    decreases |ops|
  {
    if ops != [] {
      ChainTail(ops);
      var op := ops[0];
      var pre := lines[..op.startLine - 1];
      var post := SplitLines(OpBlock(op)) + lines[Remove.Min(op.endLine, |lines|)..];
      assert Replace.Spliced(lines, op.startLine, op.endLine, OpBlock(op)) == pre + post;
      Locality(pre, post, ops[1..]);
      BottomUpIsSplice(pre, ops[1..]);
    }
  }

  /** The target's text after `replace_file` ran for each operation in turn. */
  function ApplyText(t: string, ops: seq<EditOp>): (r: string)
    requires Chain(ops)
    ensures ops != [] ==> |r| >= |Insert.Block(ops[|ops| - 1].replacement)|
    decreases |ops|
  {
    if ops == [] then t
    else
      ChainTail(ops);
      ApplyText(Replace.NewText(t, ops[0].startLine, ops[0].endLine, ops[0].replacement), ops[1..])
  }

  /** Read back, the text built by successive `replace_file` calls holds the
      lines `ApplyLines` computes, provided the first operation fits the file. */
  lemma {:induction false} ApplyTextLines(t: string, ops: seq<EditOp>)
    requires Chain(ops) && (ops != [] ==> Replace.Fits(SplitLines(t), ops[0].startLine))
    ensures ops != [] ==> ops[0].startLine <= |SplitLines(t)| + 1
    ensures SplitLines(ApplyText(t, ops)) == ApplyLines(SplitLines(t), ops)
    decreases |ops|
  {
    if ops != [] {
      ChainTail(ops);
      var op := ops[0];
      var t1 := Replace.NewText(t, op.startLine, op.endLine, op.replacement);
      Replace.ReplacesLines(t, op.startLine, op.endLine, op.replacement);
      ApplyTextLines(t1, ops[1..]);
    }
  }

  /** An operation as `ApplyChangesNode.prep` hands it to `exec`: tagged with the full target path. */
  datatype TaggedOp = TaggedOp(op: EditOp, targetFile: string)

  function Tag(ops: seq<EditOp>, path: string): (r: seq<TaggedOp>)
    ensures |r| == |ops| && forall k :: 0 <= k < |ops| ==> r[k] == TaggedOp(ops[k], path)
  {
    seq(|ops|, k requires 0 <= k < |ops| => TaggedOp(ops[k], path))
  }

  lemma TagCons(ops: seq<EditOp>, path: string)
    requires ops != []
    ensures Tag(ops, path) == [TaggedOp(ops[0], path)] + Tag(ops[1..], path)
  {
  }

  /** `ApplyChangesNode.prep` once the target's full path is known: no
      operations give an empty batch, otherwise the operations sorted by
      descending `start_line` (stably), all tagged with the same path. */
  function Prepare(ops: seq<EditOp>, fullPath: string): (r: seq<TaggedOp>)
    ensures |r| == |ops|
    ensures forall k :: 0 <= k < |r| ==> r[k].targetFile == fullPath
  {
    if ops == [] then [] else Tag(SortDesc(ops, StartLine), fullPath)
  }

  /** The batch is the input reordered: sorted by descending start line,
      equal start lines kept in input order, nothing added or lost. */
  lemma PrepareOrder(ops: seq<EditOp>, fullPath: string, k: int)
    ensures var sorted := seq(|Prepare(ops, fullPath)|, i requires 0 <= i < |ops| => Prepare(ops, fullPath)[i].op);
            && multiset(sorted) == multiset(ops)
            && SortedDesc(sorted, StartLine)
            && WithKey(sorted, StartLine, k) == WithKey(ops, StartLine, k)
  {
    var sorted := seq(|Prepare(ops, fullPath)|, i requires 0 <= i < |ops| => Prepare(ops, fullPath)[i].op);
    if ops != [] {
      assert sorted == SortDesc(ops, StartLine);
    }
    SortDescSorted(ops, StartLine);
    SortDescStable(ops, StartLine, k);
  }

  /** The file system and the `(message, success)` pairs after `exec` ran
      `replace_file` for each tagged operation in order. */
  datatype BatchRun = BatchRun(files: Files, results: seq<(string, bool)>)

  function Batch(fs: Files, ops: seq<TaggedOp>): (r: BatchRun)
    ensures |r.results| == |ops|
    decreases |ops|
  {
    if ops == [] then BatchRun(fs, [])
    else
      var o := Replace.Spec(fs, ops[0].targetFile, ops[0].op.startLine, ops[0].op.endLine, ops[0].op.replacement);
      var rest := Batch(o.files, ops[1..]);
      BatchRun(rest.files, [(o.message, o.success)] + rest.results)
  }

  /** One step of `Batch`: the first operation, then the rest on its files. */
  lemma BatchCons(fs: Files, ops: seq<TaggedOp>)
    requires ops != []
    ensures var o := Replace.Spec(fs, ops[0].targetFile, ops[0].op.startLine, ops[0].op.endLine, ops[0].op.replacement);
            var rest := Batch(o.files, ops[1..]);
            Batch(fs, ops) == BatchRun(rest.files, [(o.message, o.success)] + rest.results)
  {
  }

  lemma {:induction false} BatchSnoc(fs: Files, ops: seq<TaggedOp>, x: TaggedOp)
    ensures var b := Batch(fs, ops);
            var o := Replace.Spec(b.files, x.targetFile, x.op.startLine, x.op.endLine, x.op.replacement);
            Batch(fs, ops + [x]) == BatchRun(o.files, b.results + [(o.message, o.success)])
    decreases |ops|
  {
    if ops == [] {
      assert [x][1..] == [];
    } else {
      var o := Replace.Spec(fs, ops[0].targetFile, ops[0].op.startLine, ops[0].op.endLine, ops[0].op.replacement);
      assert (ops + [x])[1..] == ops[1..] + [x];
      BatchSnoc(o.files, ops[1..], x);
      BatchCons(fs, ops);
      BatchCons(fs, ops + [x]);
    }
  }

  /** `BatchNode.exec` over the prepared operations, one `replace_file` each, in order. */
  method RunBatch(ws: FileTools.Workspace, ops: seq<TaggedOp>) returns (results: seq<(string, bool)>)
    modifies ws
    ensures ws.files == Batch(old(ws.files), ops).files
    ensures results == Batch(old(ws.files), ops).results
  {
    results := [];
    var i := 0;
    while i < |ops|
      invariant 0 <= i <= |ops|
      invariant ws.files == Batch(old(ws.files), ops[..i]).files
      invariant results == Batch(old(ws.files), ops[..i]).results
    {
      BatchSnoc(old(ws.files), ops[..i], ops[i]);
      assert ops[..i + 1] == ops[..i] + [ops[i]];
      var op := ops[i];
      var message, success := ws.ReplaceFile(op.targetFile, op.op.startLine, op.op.endLine, op.op.replacement);
      results := results + [(message, success)];
      i := i + 1;
    }
    assert ops[..i] == ops;
  }

  /** Sorted by start line and pairwise apart, valid operations form a chain. */
  lemma SortedApartIsChain(ops: seq<EditOp>, total: int)
    requires SortedDesc(ops, StartLine) && Pairwise(ops, Apart)
    requires forall k :: 0 <= k < |ops| ==> ValidOp(ops[k], total)
    ensures Chain(ops)
  {
    forall k | 0 <= k < |ops| - 1 ensures ops[k + 1].endLine < ops[k].startLine {
      assert Apart(ops[k], ops[k + 1]);
      assert StartLine(ops[k]) >= StartLine(ops[k + 1]);
    }
  }

  /** One step of the batch: a valid range always succeeds and writes its replacement. */
  lemma BatchStep(fs: Files, x: TaggedOp, rest: seq<TaggedOp>)
    requires 1 <= x.op.startLine <= x.op.endLine
    ensures var fs1 := Replace.Created(fs, x.targetFile)[x.targetFile :=
                         Replace.SuccessText(fs, x.targetFile, x.op.startLine, x.op.endLine, x.op.replacement)];
            var b := Batch(fs1, rest);
            Batch(fs, [x] + rest)
            == BatchRun(b.files, [(Replace.SuccessMessage(x.targetFile, x.op.startLine, x.op.endLine), true)] + b.results)
  {
    Replace.ValidRangeSucceeds(fs, x.targetFile, x.op.startLine, x.op.endLine, x.op.replacement);
    assert ([x] + rest)[1..] == rest;
  }

  lemma ApplyTextUnfold(t: string, ops: seq<EditOp>)
    requires Chain(ops) && ops != []
    ensures Chain(ops[1..])
    ensures ApplyText(t, ops) == ApplyText(Replace.NewText(t, ops[0].startLine, ops[0].endLine, ops[0].replacement), ops[1..])
  {
    ChainTail(ops);
  }

  /** The file system after the first step of a batch on one target. */
  function AfterFirst(fs: Files, path: string, op: EditOp): (r: Files)
    requires 1 <= op.startLine <= op.endLine
    ensures path in r
  {
    Replace.Created(fs, path)[path := Replace.SuccessText(fs, path, op.startLine, op.endLine, op.replacement)]
  }

  /** A batch on one target is its first step followed by the rest. */
  lemma BatchFirst(fs: Files, path: string, ops: seq<EditOp>)
    requires ops != [] && 1 <= ops[0].startLine <= ops[0].endLine
    ensures Batch(fs, Tag(ops, path)).files == Batch(AfterFirst(fs, path, ops[0]), Tag(ops[1..], path)).files
  {
    TagCons(ops, path);
    BatchStep(fs, TaggedOp(ops[0], path), Tag(ops[1..], path));
  }

  /** Writing a key twice keeps only the second write. */
  lemma Overwrite(m: Files, k: string, a: string, b: string)
    ensures m[k := a][k := b] == m[k := b]
  {
  }

  /** On one target, running a chain of operations writes `ApplyText`. */
  lemma {:induction false} BatchIsApplyText(fs: Files, path: string, ops: seq<EditOp>)
    requires Chain(ops) && ops != []
    ensures Batch(fs, Tag(ops, path)).files
            == Replace.Created(fs, path)[path := ApplyText(Replace.Created(fs, path)[path], ops)]
    decreases |ops|
  {
    var fs1 := AfterFirst(fs, path, ops[0]);
    BatchFirst(fs, path, ops);
    ApplyTextUnfold(Replace.Created(fs, path)[path], ops);
    if |ops| > 1 {
      BatchIsApplyText(fs1, path, ops[1..]);
      assert Replace.Created(fs1, path) == fs1;
      Overwrite(Replace.Created(fs, path), path, fs1[path], ApplyText(fs1[path], ops[1..]));
    } else {
      assert Tag(ops[1..], path) == [];
    }
  }

  /** Every step of a chain of operations reports success. */
  lemma {:induction false} BatchAllSucceed(fs: Files, path: string, ops: seq<EditOp>)
    requires Chain(ops)
    ensures forall k :: 0 <= k < |ops| ==> Batch(fs, Tag(ops, path)).results[k].1
    decreases |ops|
  {
    if ops != [] {
      var op := ops[0];
      var fs1 := AfterFirst(fs, path, op);
      TagCons(ops, path);
      BatchStep(fs, TaggedOp(op, path), Tag(ops[1..], path));
      ChainTail(ops);
      BatchAllSucceed(fs1, path, ops[1..]);
      var all, rest := Batch(fs, Tag(ops, path)).results, Batch(fs1, Tag(ops[1..], path)).results;
      assert all == [(Replace.SuccessMessage(path, op.startLine, op.endLine), true)] + rest;
      forall k | 0 <= k < |ops| ensures all[k].1 {
        if k > 0 {
          assert all[k] == rest[k - 1];
        }
      }
    }
  }

  /** End to end: operations that pass the plan validation against the
      target's text and do not overlap, prepared and run by the batch node,
      leave the target holding exactly the reference splice of the sorted
      operations into the original lines; every `replace_file` succeeds and
      no other file changes. */
  lemma BatchSplices(fs: Files, path: string, ops: seq<EditOp>)
    requires ops != []
    requires forall k :: 0 <= k < |ops| ==> ValidOp(ops[k], CountChar(Replace.Created(fs, path)[path], NL) + 1)
    requires Pairwise(ops, Apart)
    ensures var t := Replace.Created(fs, path)[path];
            var d := SortDesc(ops, StartLine);
            var b := Batch(fs, Prepare(ops, path));
            && Chain(d) && d[0].startLine <= |SplitLines(t)| + 1
            && path in b.files
            && b.files == Replace.Created(fs, path)[path := b.files[path]]
            && SplitLines(b.files[path]) == SpliceAll(SplitLines(t), d)
            && forall k :: 0 <= k < |ops| ==> b.results[k].1
  {
    var t := Replace.Created(fs, path)[path];
    var total := CountChar(t, NL) + 1;
    var d := SortDesc(ops, StartLine);
    SortDescSorted(ops, StartLine);
    SortDescPairwise(ops, StartLine, Apart);
    forall k | 0 <= k < |d| ensures ValidOp(d[k], total) {
      SortDescMember(ops, StartLine, d[k]);
    }
    SortedApartIsChain(d, total);
    ValidatedFits(t, d[0]);
    BatchIsApplyText(fs, path, d);
    BatchAllSucceed(fs, path, d);
    ApplyTextLines(t, d);
    BottomUpIsSplice(SplitLines(t), d);
  }
}
