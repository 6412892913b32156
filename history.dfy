/**
 * The records the agent keeps in `shared["history"]`: one entry per decision,
 * holding the tool name, the reason, the parameters and, once a handler has
 * run, the result dictionary that handler wrote.
 */
module History {
  import opened Wrappers
  import opened Text
  import SearchOps

  /** A scalar JSON value as Python holds it after `json.loads`. */
  datatype Val = VStr(s: string) | VBool(b: bool) | VInt(i: int) | VNone

  /** Python truthiness. */
  predicate Truthy(v: Val)
  {
    match v
    case VStr(s) => s != ""
    case VBool(b) => b
    case VInt(i) => i != 0
    case VNone => false
  }

  /** `str(v)`, as an f-string writes it. */
  function Render(v: Val): string
  {
    match v
    case VStr(s) => s
    case VBool(b) => if b then "True" else "False"
    case VInt(i) => IntToString(i)
    case VNone => "None"
  }

  /** A parameter dictionary, in insertion order; keys are distinct. */
  type Params = seq<(string, Val)>

  /** `params.get(key)`. */
  function Get(params: Params, key: string): (r: Option<Val>)
    ensures r.Some? ==> exists k :: 0 <= k < |params| && params[k] == (key, r.value)
    ensures r.None? ==> forall k :: 0 <= k < |params| ==> params[k].0 != key
    decreases |params|
  {
    if params == [] then None
    else if params[0].0 == key then Some(params[0].1)
    else
      var r := Get(params[1..], key);
      assert forall k :: 0 < k < |params| ==> params[k] == params[1..][k - 1];
      r
  }

  /** `params.get(key, "")` read as text. */
  function GetText(params: Params, key: string): string
  {
    match Get(params, key)
    case Some(v) => Render(v)
    case None => ""
  }

  /** What `ContextManager.add_file_content` returns for a read file. */
  datatype ContentInfo =
    | FileReference(filePath: string, hash: string, duplicateOf: string, size: nat, lines: nat)
    | FileContent(filePath: string, hash: string, content: string, size: nat, lines: nat)

  /** The result dictionaries the handlers write into `history[-1]["result"]`,
      one variant per shape. `Flagged` is `{"success": ..., "message": ...}`,
      written by a read that failed or came back empty, by `delete_file` (whose
      two values arrive swapped) and by `finish`. */
  datatype Result =
    | ReadInfo(readOk: bool, contentInfo: ContentInfo)
    | Flagged(success: Val, message: Val)
    | GrepResult(grepOk: bool, matches: seq<SearchOps.Match>)
    | ListResult(listOk: bool, tree: string)
    | CommandResult(commandOk: bool, output: string, command: string, originalCommand: Option<string>)
    | EditResult(editOk: bool, operations: int, details: seq<(Val, Val)>, reasoning: string)

  /** `result.get("success", False)`. */
  function SuccessOf(r: Result): Val
  {
    match r
    case ReadInfo(ok, _) => VBool(ok)
    case Flagged(s, _) => s
    case GrepResult(ok, _) => VBool(ok)
    case ListResult(ok, _) => VBool(ok)
    case CommandResult(ok, _, _, _) => VBool(ok)
    case EditResult(ok, _, _, _) => VBool(ok)
  }

  /** One history entry; `fileContent` is the key the edit sub-flow adds. The
      timestamp is not modelled. */
  datatype Entry = Entry(tool: string, reason: string, params: Params, result: Option<Result>,
                         fileContent: Option<string>)
}
