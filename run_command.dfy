/**
 * `utils/run_command.py`: how `run_command` turns a finished (or timed out)
 * shell process into `(success, message)`, and how `get_user_approval`
 * reads answers until one decides.
 */
module RunCommand {
  import opened Text

  /** What `subprocess.run` came back with: the captured streams and exit code,
      a timeout, or some other exception with its text. */
  datatype Process =
    | Finished(stdout: string, stderr: string, returnCode: int)
    | TimedOut
    | Crashed(error: string)

  const OutHeader: string := "STDOUT:\n"
  const ErrHeader: string := "STDERR:\n"

  /** The combined output: the stdout part when stdout is non-empty, a blank
      line only between two parts, the stderr part when stderr is non-empty. */
  function Combine(stdout: string, stderr: string): (r: string)
    ensures r == "" <==> stdout == "" && stderr == ""
    ensures |r| == (if stdout != "" then |OutHeader| + |stdout| else 0)
                   + (if stdout != "" && stderr != "" then 2 else 0)
                   + (if stderr != "" then |ErrHeader| + |stderr| else 0)
    ensures stdout != "" ==> r[..|OutHeader| + |stdout|] == OutHeader + stdout
    ensures stdout != "" && stderr != "" ==> r[|OutHeader| + |stdout|..|OutHeader| + |stdout| + 2] == "\n\n"
    ensures stderr != "" ==> r[|r| - |ErrHeader| - |stderr|..] == ErrHeader + stderr
  {
    var out := if stdout != "" then OutHeader + stdout else "";
    var sep := if out != "" && stderr != "" then "\n\n" else "";
    var err := if stderr != "" then ErrHeader + stderr else "";
    assert (out + sep + err)[..|out|] == out;
    assert (out + sep + err)[|out|..|out| + |sep|] == sep;
    out + sep + err
  }

  /** `run_command(command, working_dir, timeout)` once the process is known. */
  function RunCommand(p: Process, timeout: int): (r: (bool, string))
    ensures r.0 <==> p.Finished? && p.returnCode == 0
    ensures r.1 != ""
    ensures p.Finished? && p.returnCode == 0 ==>
              r.1 == Combine(p.stdout, p.stderr) || (Combine(p.stdout, p.stderr) == "" && r.1 == "Command executed successfully (no output)")
    ensures p.Finished? && p.returnCode != 0 ==>
              var head := "Command failed (exit code " + IntToString(p.returnCode) + "):\n";
              StartsWith(r.1, head) && r.1[|head|..] == Combine(p.stdout, p.stderr)
    ensures p.TimedOut? ==> r.1 == "Command timed out after " + IntToString(timeout) + " seconds"
    ensures p.Crashed? ==> r.1 == "Unexpected error executing command: " + p.error
  {
    match p
    case Finished(stdout, stderr, code) =>
      var output := Combine(stdout, stderr);
      if code == 0 then (true, if output != "" then output else "Command executed successfully (no output)")
      else
        var head := "Command failed (exit code " + IntToString(code) + "):\n";
        assert (head + output)[..|head|] == head;
        (false, head + output)
    case TimedOut => (false, "Command timed out after " + IntToString(timeout) + " seconds")
    case Crashed(error) => (false, "Unexpected error executing command: " + error)
  }

  /** The combined output names both streams in order: the stdout text lies right
      after its header, the stderr text ends the output. */
  lemma CombineBoth(stdout: string, stderr: string)
    requires stdout != "" && stderr != ""
    ensures var r := Combine(stdout, stderr);
            StartsWith(r, OutHeader) && r[|OutHeader|..|OutHeader| + |stdout|] == stdout
            && EndsWith(r, stderr)
  {
    var r := Combine(stdout, stderr);
    var n := |OutHeader| + |stdout|;
    assert r[..n] == OutHeader + stdout;
    assert r[..|OutHeader|] == r[..n][..|OutHeader|];
    assert r[|OutHeader|..n] == r[..n][|OutHeader|..];
    assert r[|r| - |stderr|..] == r[|r| - |ErrHeader| - |stderr|..][|ErrHeader|..];
  }

  /* ---------- get_user_approval ---------- */

  /** One read from the prompt: a typed line, or Ctrl-C. Running out of answers
      is end of input. */
  datatype Answer = Typed(text: string) | Interrupt

  /** What one stripped, lower-cased answer means. */
  datatype Verdict = Approve | Reject | Details | Unrecognised

  function Classify(text: string): (v: Verdict)
    ensures v == Approve <==> Lower(Strip(text)) in {"y", "yes"}
    ensures v == Reject <==> Lower(Strip(text)) in {"n", "no", ""}
  {
    var r := Lower(Strip(text));
    if r in {"y", "yes"} then Approve
    else if r in {"n", "no", ""} then Reject
    else if r in {"d", "details", "detail"} then Details
    else Unrecognised
  }

  /** An answer that ends the loop. */
  predicate Decisive(a: Answer)
  {
    a.Interrupt? || Classify(a.text) == Approve || Classify(a.text) == Reject
  }

  /** The loop's result as a function of the answers. */
  function Approval(answers: seq<Answer>): (r: bool)
    ensures r ==> exists i :: 0 <= i < |answers| && answers[i].Typed? && Classify(answers[i].text) == Approve
    decreases |answers|
  {
    if answers == [] then false
    else if Decisive(answers[0]) then answers[0].Typed? && Classify(answers[0].text) == Approve
    else Approval(answers[1..])
  }

  /** `get_user_approval(command, reason)`: prompt until an answer decides; the
      details and the hint are printed, and the loop goes on. Also returns how
      many answers were read. */
  method GetUserApproval(answers: seq<Answer>) returns (approved: bool, read: nat)
    ensures approved == Approval(answers)
    ensures read <= |answers|
    ensures forall j :: 0 <= j < read - 1 ==> !Decisive(answers[j])
    ensures read < |answers| ==> read > 0 && Decisive(answers[read - 1])
  {
    read := 0;
    while read < |answers|
      invariant read <= |answers|
      invariant forall j :: 0 <= j < read ==> !Decisive(answers[j])
      invariant Approval(answers) == Approval(answers[read..])
    {
      var a := answers[read];
      assert answers[read..][1..] == answers[read + 1..];
      read := read + 1;
      if a.Interrupt? {
        return false, read;
      }
      var v := Classify(a.text);
      if v == Approve {
        return true, read;
      } else if v == Reject {
        return false, read;
      }
    }
    return false, read;
  }

  /** Answer `i` says yes and every answer before it was neither decisive nor an interrupt. */
  predicate ApprovedAt(answers: seq<Answer>, i: int)
  {
    0 <= i < |answers| && answers[i].Typed? && Classify(answers[i].text) == Approve
    && forall j :: 0 <= j < i ==> !Decisive(answers[j])
  }

  /** Approval holds exactly when some answer says yes and every answer before it
      was neither decisive nor an interrupt. */
  lemma {:induction false} ApprovalIff(answers: seq<Answer>)
    ensures Approval(answers) <==> exists i :: ApprovedAt(answers, i)
    decreases |answers|
  {
    if answers == [] {
    } else if Decisive(answers[0]) {
      if Approval(answers) {
        assert ApprovedAt(answers, 0);
      }
      forall i | 0 < i < |answers| ensures !ApprovedAt(answers, i) {
        assert Decisive(answers[0]);
      }
    } else {
      var tail := answers[1..];
      ApprovalIff(tail);
      assert !ApprovedAt(answers, 0);
      if Approval(answers) {
        var i :| ApprovedAt(tail, i);
        ApprovedShift(answers, i);
      }
      if exists i :: ApprovedAt(answers, i) {
        var i :| ApprovedAt(answers, i);
        ApprovedShift(answers, i - 1);
      }
    }
  }

  /** Past an answer that did not decide, approval at `i + 1` is approval at `i` of the rest. */
  lemma ApprovedShift(answers: seq<Answer>, i: nat)
    requires answers != [] && !Decisive(answers[0])
    ensures ApprovedAt(answers, i + 1) <==> ApprovedAt(answers[1..], i)
  {
    var tail := answers[1..];
    if i < |tail| {
      assert answers[i + 1] == tail[i];
    }
    if ApprovedAt(tail, i) {
      forall j | 0 <= j < i + 1 ensures !Decisive(answers[j]) {
        if j > 0 { assert answers[j] == tail[j - 1]; }
      }
    }
    if ApprovedAt(answers, i + 1) {
      forall j | 0 <= j < i ensures !Decisive(tail[j]) {
        assert tail[j] == answers[j + 1];
      }
    }
  }
}
