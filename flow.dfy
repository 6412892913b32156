/**
 * `flow.py`: the nodes of the coding agent and the graph that wires them.
 * Every node reads the shared store in `prep`, does its work in `exec` and
 * writes the store in `post`, returning the action that picks the next node.
 * The store is the class `Shared`; a step that raises is `Raise`, which ends
 * the run. The language model, `json.loads`, the shell and the file walk are
 * inputs of the node that uses them.
 */
module Flow {
  import opened Wrappers
  import opened Text
  import opened Files
  import opened History
  import Lines
  import StableSort
  import EditPlan
  import FileTools
  import ReadFile
  import RunCommand
  import ContextText
  import ContextCache
  import SearchOps
  import DirItems
  import DirOps
  import Replace = ReplaceFile

  /** What a node step produced: a value, or the message of the exception it raised. */
  datatype Step<T> = Value(value: T) | Raise(error: string)

  const NoJson: string := "No JSON object found in response"
  /** `json.loads` rejected the extracted text. */
  const DecodeError: string := "JSONDecodeError"

  /* ---------- the decision reply ---------- */

  const Opener: string := "```json"
  const Fence: string := "```"

  /** `s[i:i+7]` is the opener, compared case-insensitively. */
  predicate OpenerAt(s: string, i: nat)
  {
    i + |Opener| <= |s| && Lower(s[i..i + |Opener|]) == Opener
  }

  /** The first opener at or after `i`, or -1. */
  function FirstOpener(s: string, i: nat): (r: int)
    requires i <= |s|
    ensures r == -1 || (i <= r && OpenerAt(s, r))
    ensures forall j: nat :: i <= j && (r == -1 || j < r) ==> !OpenerAt(s, j)
    decreases |s| - i
  {
    if OpenerAt(s, i) then i
    else if i == |s| then -1
    else FirstOpener(s, i + 1)
  }

  /** `MainDecisionAgent._extract_json_from_response`: the pattern
      ```` ```json\s*(.*)\s*``` ```` searched case-insensitively across lines,
      else a stripped reply that looks like an object, else "". */
  function ExtractJson(response: string): (r: string)
    ensures |r| <= |response|
    ensures |r| > 0 ==> !IsSpace(r[0]) && !IsSpace(r[|r| - 1])
  {
    var p := FirstOpener(response, 0);
    var l := RFind(response, Fence);
    if p >= 0 && l >= p + |Opener| then Strip(response[p + |Opener|..l])
    else
      var t := Strip(response);
      if StartsWith(t, "{") && EndsWith(t, "}") then t else ""
  }

  lemma {:induction false} FirstOpenerIs(s: string, i: nat, p: nat)
    requires i <= p && OpenerAt(s, p) && forall j: nat :: i <= j < p ==> !OpenerAt(s, j)
    ensures FirstOpener(s, i) == p
    decreases p - i
  {
    if i < p {
      FirstOpenerIs(s, i + 1, p);
    }
  }

  lemma {:induction false} RFindBelowIs(s: string, sub: string, lo: nat, hi: nat, l: nat)
    requires lo <= l < hi && OccursAt(s, sub, l) && forall j: nat :: l < j < hi ==> !OccursAt(s, sub, j)
    ensures RFindBelow(s, sub, lo, hi) == l
    decreases hi - lo
  {
    if l < hi - 1 {
      RFindBelowIs(s, sub, lo, hi - 1, l);
    }
  }

  /** The match runs from the first opener to the LAST fence after it. */
  lemma ExtractBlock(response: string, p: nat, l: nat)
    requires OpenerAt(response, p) && forall j: nat :: j < p ==> !OpenerAt(response, j)
    requires OccursAt(response, Fence, l) && l >= p + |Opener|
    requires forall j: nat :: l < j ==> !OccursAt(response, Fence, j)
    ensures ExtractJson(response) == Strip(response[p + |Opener|..l])
  {
    FirstOpenerIs(response, 0, p);
    RFindBelowIs(response, Fence, 0, |response| + 1, l);
    assert FirstOpener(response, 0) == p && RFind(response, Fence) == l;
  }

  /** With no opener followed by a fence, the fallback decides. */
  lemma ExtractFallback(response: string)
    requires forall p: nat, l: nat :: OpenerAt(response, p) && OccursAt(response, Fence, l) ==> l < p + |Opener|
    ensures var t := Strip(response);
            ExtractJson(response) == if StartsWith(t, "{") && EndsWith(t, "}") then t else ""
  {
    var p, l := FirstOpener(response, 0), RFind(response, Fence);
    if p >= 0 && l >= 0 {
      assert OpenerAt(response, p) && OccursAt(response, Fence, l);
    }
  }

  /** A reply that opens with the opener and ends with a fence yields its whole
      stripped interior, whatever fences lie inside it. */
  lemma ExtractWhole(mid: string)
    ensures ExtractJson(Opener + mid + Fence) == Strip(mid)
  {
    var s := Opener + mid + Fence;
    assert s[0..|Opener|] == Opener;
    assert Lower(Opener) == Opener;
    var l := |s| - |Fence|;
    assert s[l..l + |Fence|] == Fence;
    assert s[|Opener|..l] == mid;
    ExtractBlock(s, 0, l);
  }

  /** Greedy matching: two fenced blocks come back as one text that runs from
      the first block's body to the end of the second. */
  lemma ExtractTwoBlocks(a: string, b: string, c: string)
    ensures ExtractJson(Opener + a + Fence + b + Opener + c + Fence) == Strip(a + Fence + b + Opener + c)
  {
    assert Opener + a + Fence + b + Opener + c + Fence == Opener + (a + Fence + b + Opener + c) + Fence;
    ExtractWhole(a + Fence + b + Opener + c);
  }

  /** The fields `json.loads` gave for the decision object (absent keys are None). */
  datatype Reply = Reply(tool: Option<string>, reason: Option<string>, params: Option<Params>)

  /** A decision that passed validation. */
  datatype Decision = Decision(tool: string, reason: string, params: Params)

  /** The assertions of `MainDecisionAgent.exec`, in their order. */
  function Validate(d: Reply): (r: Step<Decision>)
    ensures r.Value? <==> d.tool.Some? && d.reason.Some? && d.params.Some?
                          && (d.tool.value == "finish" ==> Get(d.params.value, "final_response").Some?)
    ensures r.Value? ==> r.value == Decision(d.tool.value, d.reason.value, d.params.value)
    ensures d.tool.None? ==> r == Raise("Tool name is missing")
    ensures d.tool.Some? && d.reason.None? ==> r == Raise("Reason is missing")
  {
    if d.tool.None? then Raise("Tool name is missing")
    else if d.reason.None? then Raise("Reason is missing")
    else if d.tool.value == "finish" then
      if d.params.None? then Raise("Parameters are missing for finish tool")
      else if Get(d.params.value, "final_response").None? then Raise("final_response parameter is required for finish tool")
      else Value(Decision(d.tool.value, d.reason.value, d.params.value))
    else if d.params.None? then Raise("Parameters are missing")
    else Value(Decision(d.tool.value, d.reason.value, d.params.value))
  }

  /** `MainDecisionAgent.exec` once the model has replied: extract, decode, validate. */
  function Decide(reply: string, decode: string -> Option<Reply>): (r: Step<Decision>)
    ensures ExtractJson(reply) == "" ==> r == Raise(NoJson)
    ensures r.Value? ==> ExtractJson(reply) != "" && decode(ExtractJson(reply)).Some?
                         && Validate(decode(ExtractJson(reply)).value) == r
  {
    var json := ExtractJson(reply);
    if json == "" then Raise(NoJson)
    else
      match decode(json)
      case None => Raise(DecodeError)
      case Some(d) => Validate(d)
  }

  /* ---------- the edit plan reply ---------- */

  /** Python `s.split(sep)[0]`: the text before the first `sep`. */
  function Before(s: string, sep: string): (r: string)
    requires |sep| > 0
  {
    var i := Find(s, sep);
    if i >= 0 then s[..i] else s
  }

  /** The text after the first `sep`. */
  function After(s: string, sep: string): string
    requires |sep| > 0 && Contains(s, sep)
  {
    s[Find(s, sep) + |sep|..]
  }

  lemma SplitFirst(s: string, sep: string)
    requires |sep| > 0
    ensures Split(s, sep)[0] == Before(s, sep)
  {
  }

  lemma SplitSecond(s: string, sep: string)
    requires |sep| > 0 && Contains(s, sep)
    ensures |Split(s, sep)| >= 2 && Split(s, sep)[1] == Before(After(s, sep), sep)
  {
    SplitFirst(After(s, sep), sep);
  }

  /** The block extraction of `AnalyzeAndPlanNode.exec`. Its `len(json_blocks) > 1`
      guards always hold: the plan is the text after the first opener, cut at the
      next opener and then at the next fence; with no opener, the text between
      the first two fences. */
  function PlanJson(response: string): (r: string)
    ensures Contains(response, Opener) ==> r == Strip(Before(Before(After(response, Opener), Opener), Fence))
    ensures !Contains(response, Opener) && Contains(response, Fence) ==>
              r == Strip(Before(After(response, Fence), Fence))
    ensures !Contains(response, Opener) && !Contains(response, Fence) ==> r == ""
  {
    if Contains(response, Opener) then
      var blocks := Split(response, Opener);
      SplitSecond(response, Opener);
      SplitFirst(blocks[1], Fence);
      if |blocks| > 1 then Strip(Split(blocks[1], Fence)[0]) else ""
    else if Contains(response, Fence) then
      var blocks := Split(response, Fence);
      SplitSecond(response, Fence);
      if |blocks| > 1 then Strip(blocks[1]) else ""
    else ""
  }

  /** One operation as decoded; a missing key is None. */
  datatype RawOp = RawOp(startLine: Option<int>, endLine: Option<int>, replacement: Option<string>)

  /** The `operations` field: absent, not a list, or a list of operations. */
  datatype OpsField = Missing | NotAList | Listed(ops: seq<RawOp>)

  /** The fields `json.loads` gave for the plan object. */
  datatype PlanReply = PlanReply(reasoning: Option<string>, operations: OpsField)

  /** A plan that passed validation. */
  datatype Plan = Plan(reasoning: string, operations: seq<EditPlan.EditOp>)

  predicate Complete(op: RawOp)
  {
    op.startLine.Some? && op.endLine.Some? && op.replacement.Some?
  }

  function Cooked(op: RawOp): EditPlan.EditOp
    requires Complete(op)
  {
    EditPlan.EditOp(op.startLine.value, op.endLine.value, op.replacement.value)
  }

  /** The six assertions on one operation, in their order. */
  function RawError(op: RawOp, total: int): (err: Option<string>)
    ensures err.None? <==> Complete(op) && EditPlan.ValidOp(Cooked(op), total)
    ensures op.startLine.None? ==> err == Some("start_line is missing")
    ensures Complete(op) ==> err == EditPlan.OpError(Cooked(op), total)
  {
    if op.startLine.None? then Some("start_line is missing")
    else if op.endLine.None? then Some("end_line is missing")
    else if op.replacement.None? then Some("replacement is missing")
    else EditPlan.OpError(Cooked(op), total)
  }

  /** The error of the first operation that fails, as the loop raises it. */
  function FirstRawError(ops: seq<RawOp>, total: int): (err: Option<string>)
    ensures err.None? <==> forall k :: 0 <= k < |ops| ==> RawError(ops[k], total).None?
    decreases |ops|
  {
    if ops == [] then None
    else if RawError(ops[0], total).Some? then RawError(ops[0], total)
    else
      var rest := FirstRawError(ops[1..], total);
      assert forall k :: 0 < k < |ops| ==> ops[k] == ops[1..][k - 1];
      rest
  }

  /** The error raised is that of the first operation that fails. */
  lemma {:induction false} FirstRawErrorIsFirst(ops: seq<RawOp>, total: int)
    requires FirstRawError(ops, total).Some?
    ensures exists k :: 0 <= k < |ops| && RawError(ops[k], total) == FirstRawError(ops, total)
                        && forall j :: 0 <= j < k ==> RawError(ops[j], total).None?
    decreases |ops|
  {
    if RawError(ops[0], total).None? {
      var rest := ops[1..];
      FirstRawErrorIsFirst(rest, total);
      var k :| 0 <= k < |rest| && RawError(rest[k], total) == FirstRawError(rest, total)
               && forall j :: 0 <= j < k ==> RawError(rest[j], total).None?;
      assert ops[k + 1] == rest[k];
      forall j | 0 <= j < k + 1 ensures RawError(ops[j], total).None? {
        if j > 0 {
          assert ops[j] == rest[j - 1];
        }
      }
    }
  }

  /** The assertions of `AnalyzeAndPlanNode.exec` on the decoded plan. */
  function ValidatePlan(p: PlanReply, total: int): (r: Step<Plan>)
    ensures r.Value? <==> p.reasoning.Some? && p.operations.Listed? && FirstRawError(p.operations.ops, total).None?
    ensures r.Value? ==> r.value.reasoning == p.reasoning.value
                         && |r.value.operations| == |p.operations.ops|
                         && forall k :: 0 <= k < |p.operations.ops| ==>
                              Complete(p.operations.ops[k]) && r.value.operations[k] == Cooked(p.operations.ops[k])
                              && EditPlan.ValidOp(r.value.operations[k], total)
    ensures p.reasoning.None? ==> r == Raise("Reasoning is missing")
    ensures p.reasoning.Some? && p.operations.Missing? ==> r == Raise("Operations are missing")
    ensures p.reasoning.Some? && p.operations.NotAList? ==> r == Raise("Operations are not a list")
  {
    if p.reasoning.None? then Raise("Reasoning is missing")
    else
      match p.operations
      case Missing => Raise("Operations are missing")
      case NotAList => Raise("Operations are not a list")
      case Listed(ops) =>
        var err := FirstRawError(ops, total);
        if err.Some? then Raise(err.value)
        else Value(Plan(p.reasoning.value, seq(|ops|, k requires 0 <= k < |ops| => Cooked(ops[k]))))
  }

  /** The plan check agrees with the check the edit step relies on. */
  lemma AcceptedPlanChecks(p: PlanReply, total: int)
    requires ValidatePlan(p, total).Value?
    ensures EditPlan.CheckOps(ValidatePlan(p, total).value.operations, total).None?
  {
  }

  /** `AnalyzeAndPlanNode.exec` once the model has replied, for a file of `total` lines. */
  function Analyze(reply: string, decode: string -> Option<PlanReply>, total: int): (r: Step<Plan>)
    ensures PlanJson(reply) == "" ==> r == Raise(NoJson)
    ensures r.Value? ==> decode(PlanJson(reply)).Some? && ValidatePlan(decode(PlanJson(reply)).value, total) == r
  {
    var json := PlanJson(reply);
    if json == "" then Raise(NoJson)
    else
      match decode(json)
      case None => Raise(DecodeError)
      case Some(p) => ValidatePlan(p, total)
  }

  /** The edit step carries out what the planning step accepts. For an existing
      target, a plan `ValidatePlan` accepts against the line count of the text
      that `read_file` returned, whose operations do not overlap, leaves the
      target holding every edit spliced into the original numbering once
      `ApplyChangesNode` has prepared and run it; every `replace_file` succeeds
      and no other file changes. */
  lemma AcceptedPlanSplices(fs: Files, path: string, p: PlanReply, total: int)
    requires path in fs
    requires total == EditPlan.TotalLines(ReadFile.ReadFile(fs, path, None, None, false).content)
    requires ValidatePlan(p, total).Value? && ValidatePlan(p, total).value.operations != []
    requires StableSort.Pairwise(ValidatePlan(p, total).value.operations, EditPlan.Apart)
    ensures var ops := ValidatePlan(p, total).value.operations;
            var d := StableSort.SortDesc(ops, EditPlan.StartLine);
            var b := EditPlan.Batch(fs, EditPlan.Prepare(ops, path));
            && EditPlan.Chain(d) && d[0].startLine <= |Lines.SplitLines(fs[path])| + 1
            && path in b.files
            && b.files == fs[path := b.files[path]]
            && Lines.SplitLines(b.files[path]) == EditPlan.SpliceAll(Lines.SplitLines(fs[path]), d)
            && forall k :: 0 <= k < |ops| ==> b.results[k].1
  {
    ReadFile.WholeReadNewlines(fs, path);
    CheckedPlanSplices(fs, path, p, total);
  }

  /** The same for a plan checked against the file's own line count. */
  lemma CheckedPlanSplices(fs: Files, path: string, p: PlanReply, total: int)
    requires path in fs && total == CountChar(fs[path], Lines.NL) + 1
    requires ValidatePlan(p, total).Value? && ValidatePlan(p, total).value.operations != []
    requires StableSort.Pairwise(ValidatePlan(p, total).value.operations, EditPlan.Apart)
    ensures var ops := ValidatePlan(p, total).value.operations;
            var d := StableSort.SortDesc(ops, EditPlan.StartLine);
            var b := EditPlan.Batch(fs, EditPlan.Prepare(ops, path));
            && EditPlan.Chain(d) && d[0].startLine <= |Lines.SplitLines(fs[path])| + 1
            && path in b.files
            && b.files == fs[path := b.files[path]]
            && Lines.SplitLines(b.files[path]) == EditPlan.SpliceAll(Lines.SplitLines(fs[path]), d)
            && forall k :: 0 <= k < |ops| ==> b.results[k].1
  {
    AcceptedInRange(p, total, total);
    SplicesExisting(fs, path, ValidatePlan(p, total).value.operations);
  }

  /** Every operation of an accepted plan lies within the `total` lines it was checked against. */
  lemma AcceptedInRange(p: PlanReply, total: int, n: int)
    requires ValidatePlan(p, total).Value? && total == n
    ensures var ops := ValidatePlan(p, total).value.operations;
            forall k :: 0 <= k < |ops| ==> EditPlan.ValidOp(ops[k], n)
  {
  }

  /** `EditPlan.BatchSplices` for a target that already exists. */
  lemma SplicesExisting(fs: Files, path: string, ops: seq<EditPlan.EditOp>)
    requires path in fs && ops != []
    requires forall k :: 0 <= k < |ops| ==> EditPlan.ValidOp(ops[k], CountChar(fs[path], Lines.NL) + 1)
    requires StableSort.Pairwise(ops, EditPlan.Apart)
    ensures var d := StableSort.SortDesc(ops, EditPlan.StartLine);
            var b := EditPlan.Batch(fs, EditPlan.Prepare(ops, path));
            && EditPlan.Chain(d) && d[0].startLine <= |Lines.SplitLines(fs[path])| + 1
            && path in b.files
            && b.files == fs[path := b.files[path]]
            && Lines.SplitLines(b.files[path]) == EditPlan.SpliceAll(Lines.SplitLines(fs[path]), d)
            && forall k :: 0 <= k < |ops| ==> b.results[k].1
  {
    assert Replace.Created(fs, path) == fs;
    EditPlan.BatchSplices(fs, path, ops);
  }

  /* ---------- the shared store ---------- */

  const NoHistory: string := "No history found"

  /** `history[-1]`, or the error every handler raises without one. */
  function LastEntry(h: seq<Entry>): (r: Step<Entry>)
    ensures r.Value? <==> h != []
    ensures r.Value? ==> r.value == h[|h| - 1]
    ensures r.Raise? ==> r.error == NoHistory
  {
    if h == [] then Raise(NoHistory) else Value(h[|h| - 1])
  }

  /** `history[-1]["result"] = res` when there is a history. */
  function WithResult(h: seq<Entry>, res: Result): (r: seq<Entry>)
    ensures |r| == |h|
    ensures h != [] ==> r[..|h| - 1] == h[..|h| - 1] && r[|h| - 1] == h[|h| - 1].(result := Some(res))
  {
    if h == [] then [] else h[..|h| - 1] + [h[|h| - 1].(result := Some(res))]
  }

  /** `history[-1]["file_content"] = content` when there is a history. */
  function WithFileContent(h: seq<Entry>, content: string): (r: seq<Entry>)
    ensures |r| == |h|
    ensures h != [] ==> r[..|h| - 1] == h[..|h| - 1] && r[|h| - 1] == h[|h| - 1].(fileContent := Some(content))
  {
    if h == [] then [] else h[..|h| - 1] + [h[|h| - 1].(fileContent := Some(content))]
  }

  /** The prep of the read, delete, read-target and apply nodes: the full path
      of the last entry's `target_file`, which must be truthy. */
  function TargetPath(h: seq<Entry>, workingDir: string): (r: Step<string>)
    ensures h == [] ==> r == Raise(NoHistory)
    ensures h != [] ==> (r.Value? <==> Get(h[|h| - 1].params, "target_file").Some?
                                       && Truthy(Get(h[|h| - 1].params, "target_file").value))
    ensures h != [] && r.Raise? ==> r.error == "Missing target_file parameter"
    ensures r.Value? ==> r.value == FullPath(workingDir, Render(Get(h[|h| - 1].params, "target_file").value))
  {
    if h == [] then Raise(NoHistory)
    else
      var file := Get(h[|h| - 1].params, "target_file");
      if file.None? || !Truthy(file.value) then Raise("Missing target_file parameter")
      else Value(FullPath(workingDir, Render(file.value)))
  }

  /** The prep of `GrepSearchAction`: the parameters, which must hold `query`. */
  function GrepPrep(h: seq<Entry>): (r: Step<Params>)
    ensures r.Value? <==> h != [] && Get(h[|h| - 1].params, "query").Some?
    ensures r.Value? ==> r.value == h[|h| - 1].params
  {
    if h == [] then Raise(NoHistory)
    else if Get(h[|h| - 1].params, "query").None? then Raise("Missing query parameter")
    else Value(h[|h| - 1].params)
  }

  /** An optional glob parameter: an absent key and JSON null both mean None. */
  function PatternParam(params: Params, key: string): (r: Option<string>)
    ensures r.None? <==> Get(params, key).None? || Get(params, key).value == VNone
  {
    match Get(params, key)
    case None => None
    case Some(v) => if v == VNone then None else Some(Render(v))
  }

  /** The prep of `ListDirAction`: `relative_workspace_path`, "." by default, under the working directory. */
  function ListPrep(h: seq<Entry>, workingDir: string): (r: Step<string>)
    ensures r.Value? <==> h != []
    ensures r.Value? && Get(h[|h| - 1].params, "relative_workspace_path").None? ==> r.value == FullPath(workingDir, ".")
  {
    if h == [] then Raise(NoHistory)
    else
      var path := match Get(h[|h| - 1].params, "relative_workspace_path")
                  case None => "."
                  case Some(v) => Render(v);
      Value(FullPath(workingDir, path))
  }

  /** What `list_dir` returns for what is at the path. */
  function ListSpec(target: Option<DirItems.Entry>, path: string, maxChars: int, kb: nat -> string): (r: (bool, string))
    ensures r.0 <==> target.Some? && target.value.DirEntry?
    ensures !r.0 ==> r.1 == ""
  {
    if target.Some? && target.value.DirEntry? then
      (true, DirOps.CapText(DirOps.Tree(DirOps.Listing(path, target.value.entries, 0), "", kb), maxChars))
    else (false, "")
  }

  /** The prep of `RunCommandAction`: the `command` parameter, which must be truthy. */
  function CommandPrep(h: seq<Entry>): (r: Step<string>)
    ensures r.Value? <==> h != [] && Get(h[|h| - 1].params, "command").Some?
                          && Truthy(Get(h[|h| - 1].params, "command").value)
    ensures r.Value? ==> r.value == Render(Get(h[|h| - 1].params, "command").value)
  {
    if h == [] then Raise(NoHistory)
    else
      var command := Get(h[|h| - 1].params, "command");
      if command.None? || !Truthy(command.value) then Raise("Missing command parameter")
      else Value(Render(command.value))
  }

  const Rejected: string := "Command execution rejected by user"

  /** The console asks in `cli` mode; any other mode asks through the web UI,
      whose answer is the pair (approved, final command). */
  function Approved(mode: string, answers: seq<RunCommand.Answer>, web: (bool, string)): bool
  {
    if mode == "cli" then RunCommand.Approval(answers) else web.0
  }

  /** The command that runs once approved: the web UI may have changed it. */
  function Executed(mode: string, command: string, web: (bool, string)): string
  {
    if mode == "cli" then command else web.1
  }

  /** `RunCommandAction.exec`: the outcome and the stored modification after
      it. A refusal runs nothing and leaves the stored modification alone. */
  function ExecCommand(mode: string, command: string, answers: seq<RunCommand.Answer>, web: (bool, string),
                       process: RunCommand.Process, modification: Option<(string, string)>)
    : (r: ((bool, string), Option<(string, string)>))
    ensures !Approved(mode, answers, web) ==> r == ((false, Rejected), modification)
    ensures Approved(mode, answers, web) ==> r.0 == RunCommand.RunCommand(process, 30)
    ensures r.1 != modification ==> Approved(mode, answers, web) && r.1 == Some((command, Executed(mode, command, web)))
                                    && Executed(mode, command, web) != command
  {
    if !Approved(mode, answers, web) then ((false, Rejected), modification)
    else
      var executed := Executed(mode, command, web);
      (RunCommand.RunCommand(process, 30), if executed != command then Some((command, executed)) else modification)
  }

  /** `(command, original_command)` recorded in the result: from the stored
      modification whenever one is present, however old. */
  function Recorded(modification: Option<(string, string)>, command: string): (r: (string, Option<string>))
    ensures r.1.Some? <==> modification.Some?
    ensures modification.None? ==> r.0 == command
  {
    if modification.Some? then (modification.value.1, Some(modification.value.0)) else (command, None)
  }

  /** The test in `RunCommandAction.post` for a command that starts a server. */
  predicate IsServerCommand(command: string)
  {
    var c := Lower(command);
    Contains(c, "streamlit run") || Contains(c, "serve") || Contains(c, "server")
  }

  /** "server" contains "serve", so the third test never decides. */
  lemma ServerTestRedundant(command: string)
    ensures IsServerCommand(command) <==> Contains(Lower(command), "streamlit run") || Contains(Lower(command), "serve")
  {
    var c := Lower(command);
    if Contains(c, "server") {
      var i: nat :| i <= |c| && OccursAt(c, "server", i);
      assert c[i..i + 5] == c[i..i + 6][..5];
      assert OccursAt(c, "serve", i);
    }
  }

  function ServerResponse(command: string): string
  {
    "✅ Successfully executed: `" + command + "`\n\nThe server should now be running. "
    + "You can access your application in your web browser at the URL shown in the output above."
  }

  /** The prep of `AnalyzeAndPlanNode`: the file content the read-target node
      stored, and the two edit parameters, each of which must be truthy. */
  function AnalyzePrep(h: seq<Entry>): (r: Step<string>)
    ensures r.Value? <==> h != [] && h[|h| - 1].fileContent.Some? && h[|h| - 1].fileContent.value != ""
                          && Get(h[|h| - 1].params, "instructions").Some? && Truthy(Get(h[|h| - 1].params, "instructions").value)
                          && Get(h[|h| - 1].params, "code_edit").Some? && Truthy(Get(h[|h| - 1].params, "code_edit").value)
    ensures r.Value? ==> r.value == h[|h| - 1].fileContent.value
    ensures h != [] && (h[|h| - 1].fileContent.None? || h[|h| - 1].fileContent.value == "") ==> r == Raise("File content not found")
  {
    if h == [] then Raise(NoHistory)
    else
      var last := h[|h| - 1];
      var instructions := Get(last.params, "instructions");
      var codeEdit := Get(last.params, "code_edit");
      if last.fileContent.None? || last.fileContent.value == "" then Raise("File content not found")
      else if instructions.None? || !Truthy(instructions.value) then Raise("Missing instructions parameter")
      else if codeEdit.None? || !Truthy(codeEdit.value) then Raise("Missing code_edit parameter")
      else Value(last.fileContent.value)
  }

  /** The prep of `ApplyChangesNode`: no operations gives an empty batch before
      any history check; otherwise the operations sorted by start line,
      descending and stably, each tagged with the target's full path. */
  function ApplyPrep(ops: Option<seq<EditPlan.EditOp>>, h: seq<Entry>, workingDir: string): (r: Step<seq<EditPlan.TaggedOp>>)
    ensures ops.GetOr([]) == [] ==> r == Value([])
    ensures ops.GetOr([]) != [] ==> (r.Value? <==> TargetPath(h, workingDir).Value?)
    ensures ops.GetOr([]) != [] && r.Value? ==> r.value == EditPlan.Prepare(ops.value, TargetPath(h, workingDir).value)
  {
    var todo := ops.GetOr([]);
    if todo == [] then Value([])
    else
      match TargetPath(h, workingDir)
      case Raise(e) => Raise(e)
      case Value(path) => Value(EditPlan.Prepare(todo, path))
  }

  /** `all(success for success, _ in exec_res_list)`: the pairs are
      `(message, success)`, so this tests the messages. */
  predicate AllSuccessful(results: seq<(string, bool)>)
  {
    forall k :: 0 <= k < |results| ==> results[k].0 != ""
  }

  /** `{"success": ..., "message": ...}` per pair, named in the same swapped order. */
  function Details(results: seq<(string, bool)>): (r: seq<(Val, Val)>)
    ensures |r| == |results|
    ensures forall k :: 0 <= k < |results| ==> r[k] == (VStr(results[k].0), VBool(results[k].1))
  {
    seq(|results|, k requires 0 <= k < |results| => (VStr(results[k].0), VBool(results[k].1)))
  }

  lemma ReplaceMessageNonEmpty(fs: Files, path: string, s: int, e: int, content: string)
    ensures Replace.Spec(fs, path, s, e, content).message != ""
  {
  }

  /** Every message `replace_file` returns is non-empty, so the recorded edit
      result always says success. */
  lemma {:induction false} EditAlwaysSuccessful(fs: Files, ops: seq<EditPlan.TaggedOp>)
    ensures AllSuccessful(EditPlan.Batch(fs, ops).results)
    decreases |ops|
  {
    if ops != [] {
      var o := Replace.Spec(fs, ops[0].targetFile, ops[0].op.startLine, ops[0].op.endLine, ops[0].op.replacement);
      ReplaceMessageNonEmpty(fs, ops[0].targetFile, ops[0].op.startLine, ops[0].op.endLine, ops[0].op.replacement);
      EditAlwaysSuccessful(o.files, ops[1..]);
    }
  }

  /** An edit that `replace_file` refuses is still recorded as a success. */
  lemma FailedEditRecordedAsSuccess(fs: Files, path: string, op: EditPlan.EditOp)
    requires op.startLine < 1
    ensures var b := EditPlan.Batch(fs, [EditPlan.TaggedOp(op, path)]);
            |b.results| == 1 && !b.results[0].1 && AllSuccessful(b.results)
  {
    EditAlwaysSuccessful(fs, [EditPlan.TaggedOp(op, path)]);
  }

  /** The keys of `shared` that the nodes write. */
  datatype SharedState = SharedState(history: seq<Entry>, response: Option<Val>,
                                     editOperations: Option<seq<EditPlan.EditOp>>,
                                     editReasoning: Option<string>,
                                     commandModification: Option<(string, string)>)

  /** The shared store of one run, as `main.py` builds it. */
  class Shared {
    const userQuery: string
    const workingDir: string
    const mode: string
    var history: seq<Entry>
    var response: Option<Val>
    var editOperations: Option<seq<EditPlan.EditOp>>
    var editReasoning: Option<string>
    /** `(original, executed)`: written when the web UI changed a command, never removed. */
    var commandModification: Option<(string, string)>

    function State(): SharedState
      reads this
    {
      SharedState(history, response, editOperations, editReasoning, commandModification)
    }

    constructor(userQuery: string, workingDir: string, mode: string)
      ensures this.userQuery == userQuery && this.workingDir == workingDir && this.mode == mode
      ensures State() == SharedState([], None, None, None, None)
    {
      this.userQuery := userQuery;
      this.workingDir := workingDir;
      this.mode := mode;
      history := [];
      response := None;
      editOperations := None;
      editReasoning := None;
      commandModification := None;
    }

    /** `MainDecisionAgent`: the contextual history goes into the prompt, the
        model's `reply` is decided on, and the decision is appended to the
        history with no result yet; the action is the tool name. */
    method DecisionNode(cm: ContextCache.ContextManager, reply: string, decode: string -> Option<Reply>)
      returns (context: string, out: Step<Option<string>>)
      requires cm.Valid()
      modifies this
      ensures context == ContextText.ContextualHistory(old(history), userQuery, cm.maxContextChars,
                                                       cm.fileCache != map[], ContextCache.FileSummary(cm.State()))
      ensures var d := Decide(reply, decode);
              d.Raise? ==> out == Raise(d.error) && State() == old(State())
      ensures var d := Decide(reply, decode);
              d.Value? ==> out == Value(Some(d.value.tool))
                           && State() == old(State()).(history := old(history)
                                                        + [Entry(d.value.tool, d.value.reason, d.value.params, None, None)])
    {
      context := cm.GetContextualHistory(history, userQuery);
      var d := Decide(reply, decode);
      if d.Raise? {
        return context, Raise(d.error);
      }
      history := history + [Entry(d.value.tool, d.value.reason, d.value.params, None, None)];
      out := Value(Some(d.value.tool));
    }

    /** `ReadFileAction`: read the whole file; a successful non-empty read goes
        through the content cache, anything else is recorded as a message. */
    method ReadNode(ws: FileTools.Workspace, cm: ContextCache.ContextManager, now: string)
      returns (out: Step<Option<string>>)
      requires cm.Valid()
      modifies this, cm
      ensures cm.Valid()
      ensures var pre := TargetPath(old(history), workingDir);
              pre.Raise? ==> out == Raise(pre.error) && State() == old(State()) && cm.State() == old(cm.State())
      ensures var pre := TargetPath(old(history), workingDir);
              pre.Value? ==>
                var rd := ReadFile.ReadFile(ws.files, pre.value, None, None, false);
                var added := ContextCache.Add(old(cm.State()), cm.fingerprint, pre.value, rd.content, now);
                out == Value(None)
                && (rd.success && rd.content != "" ==>
                      cm.State() == added.0
                      && State() == old(State()).(history := WithResult(old(history), ReadInfo(true, added.1))))
                && (!(rd.success && rd.content != "") ==>
                      cm.State() == old(cm.State())
                      && State() == old(State()).(history := WithResult(old(history),
                                                     Flagged(VBool(rd.success), VStr(rd.content)))))
    {
      var pre := TargetPath(history, workingDir);
      if pre.Raise? {
        return Raise(pre.error);
      }
      var rd := ReadFile.ReadFile(ws.files, pre.value, None, None, false);
      if rd.success && rd.content != "" {
        var info := cm.AddFileContent(pre.value, rd.content, now);
        history := WithResult(history, ReadInfo(true, info));
      } else {
        history := WithResult(history, Flagged(VBool(rd.success), VStr(rd.content)));
      }
      out := Value(None);
    }

    /** `GrepSearchAction`: search the walk with the include and exclude globs
        of the parameters; the query itself is what `queryCompiles` and
        `found` stand for. */
    method GrepNode(queryCompiles: bool, walk: seq<SearchOps.WalkFile>, compiles: string -> bool,
                    matches: (string, string) -> bool, found: string -> bool)
      returns (out: Step<Option<string>>)
      modifies this
      ensures var pre := GrepPrep(old(history));
              pre.Raise? ==> out == Raise(pre.error) && State() == old(State())
      ensures var pre := GrepPrep(old(history));
              pre.Value? ==>
                var g := SearchOps.GrepSpec(queryCompiles, walk,
                                            SearchOps.Filter(PatternParam(pre.value, "include_pattern"), compiles),
                                            SearchOps.Filter(PatternParam(pre.value, "exclude_pattern"), compiles),
                                            matches, found);
                out == Value(None) && State() == old(State()).(history := WithResult(old(history), GrepResult(g.1, g.0)))
    {
      var pre := GrepPrep(history);
      if pre.Raise? {
        return Raise(pre.error);
      }
      var results, success := SearchOps.GrepSearch(queryCompiles, walk, PatternParam(pre.value, "include_pattern"),
                                                   PatternParam(pre.value, "exclude_pattern"), compiles, matches, found);
      history := WithResult(history, GrepResult(success, results));
      out := Value(None);
    }

    /** `ListDirAction`: `target` is what lies at the path. */
    method ListNode(target: Option<DirItems.Entry>, maxChars: int, kb: nat -> string)
      returns (out: Step<Option<string>>)
      modifies this
      ensures var pre := ListPrep(old(history), workingDir);
              pre.Raise? ==> out == Raise(pre.error) && State() == old(State())
      ensures var pre := ListPrep(old(history), workingDir);
              pre.Value? ==>
                var l := ListSpec(target, pre.value, maxChars, kb);
                out == Value(None) && State() == old(State()).(history := WithResult(old(history), ListResult(l.0, l.1)))
    {
      var pre := ListPrep(history, workingDir);
      if pre.Raise? {
        return Raise(pre.error);
      }
      var success, tree := DirOps.ListDir(target, pre.value, maxChars, kb);
      history := WithResult(history, ListResult(success, tree));
      out := Value(None);
    }

    /** `DeleteFileAction`: `delete_file` returns `(message, success)`, which
        the node records under the opposite names. */
    method DeleteNode(ws: FileTools.Workspace) returns (out: Step<Option<string>>)
      modifies this, ws
      ensures var pre := TargetPath(old(history), workingDir);
              pre.Raise? ==> out == Raise(pre.error) && State() == old(State()) && ws.files == old(ws.files)
      ensures var pre := TargetPath(old(history), workingDir);
              pre.Value? ==>
                var o := FileTools.DeleteSpec(old(ws.files), pre.value);
                out == Value(None) && ws.files == o.files
                && State() == old(State()).(history := WithResult(old(history), Flagged(VStr(o.message), VBool(o.success))))
    {
      var pre := TargetPath(history, workingDir);
      if pre.Raise? {
        return Raise(pre.error);
      }
      var message, success := ws.DeleteFile(pre.value);
      history := WithResult(history, Flagged(VStr(message), VBool(success)));
      out := Value(None);
    }

    /** The approval and run of `RunCommandAction.exec`. */
    method CommandExec(command: string, answers: seq<RunCommand.Answer>, web: (bool, string), process: RunCommand.Process)
      returns (res: (bool, string))
      modifies this
      ensures (res, commandModification) == ExecCommand(mode, command, answers, web, process, old(commandModification))
      ensures State() == old(State()).(commandModification := commandModification)
    {
      var approved: bool;
      var executed := command;
      if mode == "cli" {
        var read;
        approved, read := RunCommand.GetUserApproval(answers);
      } else {
        approved := web.0;
        executed := web.1;
      }
      if !approved {
        return (false, Rejected);
      }
      if executed != command {
        commandModification := Some((command, executed));
      }
      res := RunCommand.RunCommand(process, 30);
    }

    /** `RunCommandAction`: ask for approval (console `answers`, or the web
        UI's `web` answer), remember a changed command, run it (`process` is
        what the shell did, with the default 30-second timeout) and record the
        outcome. A successful server command ends the run with a response. */
    method CommandNode(answers: seq<RunCommand.Answer>, web: (bool, string), process: RunCommand.Process)
      returns (out: Step<Option<string>>)
      modifies this
      ensures var pre := CommandPrep(old(history));
              pre.Raise? ==> out == Raise(pre.error) && State() == old(State())
      ensures var pre := CommandPrep(old(history));
              pre.Value? ==>
                var e := ExecCommand(mode, pre.value, answers, web, process, old(commandModification));
                var rec := Recorded(e.1, pre.value);
                var done := e.0.0 && IsServerCommand(pre.value);
                out == Value(Some(if done then "done" else ""))
                && State() == old(State()).(history := WithResult(old(history), CommandResult(e.0.0, e.0.1, rec.0, rec.1)),
                                            commandModification := e.1,
                                            response := if done then Some(VStr(ServerResponse(pre.value))) else old(response))
    {
      var pre := CommandPrep(history);
      if pre.Raise? {
        return Raise(pre.error);
      }
      var res := CommandExec(pre.value, answers, web, process);
      out := CommandPost(pre.value, res);
    }

    /** `RunCommandAction.post`: the command recorded is the stored
        modification's whenever there is one. */
    method CommandPost(command: string, res: (bool, string)) returns (out: Step<Option<string>>)
      modifies this
      ensures var rec := Recorded(old(commandModification), command);
              var done := res.0 && IsServerCommand(command);
              out == Value(Some(if done then "done" else ""))
              && State() == old(State()).(history := WithResult(old(history), CommandResult(res.0, res.1, rec.0, rec.1)),
                                          response := if done then Some(VStr(ServerResponse(command))) else old(response))
    {
      var rec := Recorded(commandModification, command);
      history := WithResult(history, CommandResult(res.0, res.1, rec.0, rec.1));
      if res.0 && IsServerCommand(command) {
        response := Some(VStr(ServerResponse(command)));
        return Value(Some("done"));
      }
      out := Value(Some(""));
    }

    /** `ReadTargetFileNode`: the read's text goes into `file_content`, whether
        or not the read succeeded. */
    method ReadTargetNode(ws: FileTools.Workspace) returns (out: Step<Option<string>>)
      modifies this
      ensures var pre := TargetPath(old(history), workingDir);
              pre.Raise? ==> out == Raise(pre.error) && State() == old(State())
      ensures var pre := TargetPath(old(history), workingDir);
              pre.Value? ==>
                var rd := ReadFile.ReadFile(ws.files, pre.value, None, None, false);
                out == Value(None) && State() == old(State()).(history := WithFileContent(old(history), rd.content))
    {
      var pre := TargetPath(history, workingDir);
      if pre.Raise? {
        return Raise(pre.error);
      }
      var rd := ReadFile.ReadFile(ws.files, pre.value, None, None, false);
      history := WithFileContent(history, rd.content);
      out := Value(None);
    }

    /** `AnalyzeAndPlanNode`: plan against the line count of the stored content
        and keep the reasoning and the operations. */
    method AnalyzeNode(reply: string, decode: string -> Option<PlanReply>) returns (out: Step<Option<string>>)
      modifies this
      ensures var pre := AnalyzePrep(old(history));
              pre.Raise? ==> out == Raise(pre.error) && State() == old(State())
      ensures var pre := AnalyzePrep(old(history));
              pre.Value? ==>
                var plan := Analyze(reply, decode, EditPlan.TotalLines(pre.value));
                (plan.Raise? ==> out == Raise(plan.error) && State() == old(State()))
                && (plan.Value? ==> out == Value(None)
                                    && State() == old(State()).(editReasoning := Some(plan.value.reasoning),
                                                                editOperations := Some(plan.value.operations)))
    {
      var pre := AnalyzePrep(history);
      if pre.Raise? {
        return Raise(pre.error);
      }
      var plan := Analyze(reply, decode, EditPlan.TotalLines(pre.value));
      if plan.Raise? {
        return Raise(plan.error);
      }
      editReasoning := Some(plan.value.reasoning);
      editOperations := Some(plan.value.operations);
      out := Value(None);
    }

    /** `ApplyChangesNode`: one `replace_file` per prepared operation, then the
        summary result, and the plan is dropped. */
    method ApplyNode(ws: FileTools.Workspace) returns (out: Step<Option<string>>)
      modifies this, ws
      ensures var pre := ApplyPrep(old(editOperations), old(history), workingDir);
              pre.Raise? ==> out == Raise(pre.error) && State() == old(State()) && ws.files == old(ws.files)
      ensures var pre := ApplyPrep(old(editOperations), old(history), workingDir);
              pre.Value? ==>
                var b := EditPlan.Batch(old(ws.files), pre.value);
                out == Value(None) && ws.files == b.files
                && State() == old(State()).(history := WithResult(old(history),
                                                         EditResult(AllSuccessful(b.results), |b.results|, Details(b.results),
                                                                    old(editReasoning).GetOr(""))),
                                            editOperations := None, editReasoning := None)
    {
      var pre := ApplyPrep(editOperations, history, workingDir);
      if pre.Raise? {
        return Raise(pre.error);
      }
      var results := EditPlan.RunBatch(ws, pre.value);
      ApplyPost(results);
      out := Value(None);
    }

    /** `ApplyChangesNode.post`. */
    method ApplyPost(results: seq<(string, bool)>)
      modifies this
      ensures State() == old(State()).(history := WithResult(old(history),
                                                   EditResult(AllSuccessful(results), |results|, Details(results),
                                                              old(editReasoning).GetOr(""))),
                                      editOperations := None, editReasoning := None)
    {
      history := WithResult(history, EditResult(AllSuccessful(results), |results|, Details(results), editReasoning.GetOr("")));
      editOperations := None;
      editReasoning := None;
    }

    /** `FinishAction`: the truthy `final_response` becomes the response. */
    method FinishNode() returns (out: Step<Option<string>>)
      modifies this
      ensures LastEntry(old(history)).Raise? ==> out == Raise(NoHistory) && State() == old(State())
      ensures LastEntry(old(history)).Value? ==>
                var v := Get(old(history)[|old(history)| - 1].params, "final_response");
                (v.None? || !Truthy(v.value) ==> out == Raise("Missing final_response parameter") && State() == old(State()))
                && (v.Some? && Truthy(v.value) ==>
                      out == Value(Some("done"))
                      && State() == old(State()).(response := v,
                                                  history := WithResult(old(history),
                                                               Flagged(VBool(true), VStr("Task completed successfully")))))
    {
      if history == [] {
        return Raise(NoHistory);
      }
      var v := Get(history[|history| - 1].params, "final_response");
      if v.None? || !Truthy(v.value) {
        return Raise("Missing final_response parameter");
      }
      response := v;
      history := WithResult(history, Flagged(VBool(true), VStr("Task completed successfully")));
      out := Value(Some("done"));
    }
  }

  /* ---------- the graph ---------- */

  datatype Node = MainAgent | ReadAction | GrepAction | ListDirAction | DeleteAction
                | RunCommandAction | EditAgent | FinishAction

  /** The edges of `create_main_flow`, by action. */
  function Successors(n: Node): (r: map<string, Node>)
    ensures n == MainAgent ==> r.Keys == Tools
    ensures n == FinishAction ==> r == map[]
    ensures forall a :: a in r ==> (r[a] == MainAgent <==> n != MainAgent)
  {
    match n
    case MainAgent =>
      map["read_file" := ReadAction, "grep_search" := GrepAction, "list_dir" := ListDirAction,
          "delete_file" := DeleteAction, "run_command" := RunCommandAction, "edit_file" := EditAgent,
          "finish" := FinishAction]
    case FinishAction => map[]
    case _ => map["default" := MainAgent]
  }

  /** `action or "default"`. */
  function Key(action: Option<string>): (r: string)
    ensures r != ""
    ensures action.Some? && action.value != "" ==> r == action.value
  {
    if action.None? || action.value == "" then "default" else action.value
  }

  /** The node after `n` returned `action`; None ends the run. */
  function Next(n: Node, action: Option<string>): (r: Option<Node>)
    ensures n == FinishAction ==> r.None?
    ensures n == MainAgent ==> (r.Some? <==> Key(action) in Tools)
    ensures r.Some? ==> r.value != n
  {
    var s := Successors(n);
    if Key(action) in s then Some(s[Key(action)]) else None
  }

  /** The tool names the decision node can route. */
  const Tools: set<string> := {"read_file", "grep_search", "list_dir", "delete_file", "run_command", "edit_file", "finish"}

  /** The actions each node's `post` returns. */
  predicate PostAction(n: Node, action: Option<string>)
  {
    match n
    case MainAgent => action.Some?
    case RunCommandAction => action == Some("done") || action == Some("")
    case FinishAction => action == Some("done")
    case _ => action.None?
  }

  /** The run ends after the finish node, after a command node that returned
      "done", or after a decision naming no known tool; the decision node
      leads to a handler and every handler that goes on leads back to it. */
  lemma RunEnds(n: Node, action: Option<string>)
    requires PostAction(n, action)
    ensures Next(n, action).None? <==> n == FinishAction || (n == RunCommandAction && action == Some("done"))
                                       || (n == MainAgent && action.value !in Tools)
    ensures Next(n, action).Some? ==> (n == MainAgent <==> Next(n, action).value != MainAgent)
  {
    if n == MainAgent {
      assert Successors(n).Keys == Tools;
    }
  }

  /** A run of the main flow: the nodes visited and what each `post` returned. */
  predicate IsRun(nodes: seq<Node>, actions: seq<Option<string>>)
  {
    |nodes| == |actions| && nodes != [] && nodes[0] == MainAgent
    && (forall k :: 0 <= k < |nodes| ==> PostAction(nodes[k], actions[k]))
    && (forall k :: 0 <= k < |nodes| - 1 ==> Next(nodes[k], actions[k]) == Some(nodes[k + 1]))
  }

  /** Runs alternate: decisions at the even steps, handlers at the odd ones. */
  lemma {:induction false} RunAlternates(nodes: seq<Node>, actions: seq<Option<string>>, k: nat)
    requires IsRun(nodes, actions) && k < |nodes|
    ensures nodes[k] == MainAgent <==> k % 2 == 0
  {
    if k > 0 {
      RunAlternates(nodes, actions, k - 1);
      RunEnds(nodes[k - 1], actions[k - 1]);
    }
  }

  /** The nodes of `create_edit_agent`, wired by default edges. */
  datatype EditNode = ReadTarget | AnalyzePlan | ApplyChanges

  function EditNext(n: EditNode, action: Option<string>): Option<EditNode>
  {
    if Key(action) != "default" then None
    else
      match n
      case ReadTarget => Some(AnalyzePlan)
      case AnalyzePlan => Some(ApplyChanges)
      case ApplyChanges => None
  }

  /** With every `post` returning None, the edit agent visits its three nodes
      in order and then returns None, which leads back to the decision node. */
  lemma EditSequence()
    ensures EditNext(ReadTarget, None) == Some(AnalyzePlan) && EditNext(AnalyzePlan, None) == Some(ApplyChanges)
    ensures EditNext(ApplyChanges, None).None? && Next(EditAgent, None) == Some(MainAgent)
  {
  }
}
