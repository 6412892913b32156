/**
 * The text side of `ContextManager` in `utils/context_manager.py`: how one
 * history entry is summarised, how a summary is cut to a budget, how the
 * joined context is cut to the global cap, and how older entries are ranked
 * against the query.
 */
module ContextText {
  import opened Wrappers
  import opened Text
  import opened History
  import opened StableSort
  import SearchOps

  /* ---------- _format_action_for_context ---------- */

  /** `s` if it has at most `n` characters, else its first `n` and "...". */
  function Preview(s: string, n: nat): (r: string)
    ensures |s| <= n ==> r == s
    ensures |s| > n ==> |r| == n + 3 && r[..n] == s[..n]
  {
    if |s| > n then s[..n] + "..." else s
  }

  /** Python `s.replace(chr(10), chr(10) + "  ")`. */
  function Indent(s: string): string
  {
    ReplaceChar(s, '\n', "\n  ")
  }

  function ParamLines(params: Params): (r: seq<string>)
    ensures |r| == |params|
    ensures forall k :: 0 <= k < |r| ==> r[k] == "  - " + params[k].0 + ": " + Render(params[k].1)
  {
    seq(|params|, k requires 0 <= k < |params| => "  - " + params[k].0 + ": " + Render(params[k].1))
  }

  /** The `- Tool`, `- Reason` and parameter lines. */
  function HeaderLines(a: Entry): (r: seq<string>)
    ensures |r| == 2 + (if a.params == [] then 0 else 1 + |a.params|)
    ensures r[0] == "- Tool: " + a.tool && r[1] == "- Reason: " + a.reason
    ensures a.params != [] ==> r[2] == "- Parameters:" && r[3..] == ParamLines(a.params)
  {
    ["- Tool: " + a.tool, "- Reason: " + a.reason]
    + (if a.params == [] then [] else ["- Parameters:"] + ParamLines(a.params))
  }

  /** `result.get("output")`, `.get("command")` and `.get("original_command")`. */
  function OutputOf(r: Result): Option<string>
  {
    if r.CommandResult? then Some(r.output) else None
  }

  function CommandOf(r: Result): Option<string>
  {
    if r.CommandResult? then Some(r.command) else None
  }

  function OriginalOf(r: Result): Option<string>
  {
    if r.CommandResult? then r.originalCommand else None
  }

  /** `result.get("reasoning", "")`: only the edit result has one. */
  function ReasoningOf(r: Result): string
  {
    if r.EditResult? then r.reasoning else ""
  }

  /** The `- Result` line. A failed command shows the first line of its output;
      any other failure its message, or "Unknown error". */
  function StatusLine(tool: string, r: Result): (line: string)
    ensures Truthy(SuccessOf(r)) <==> line == "- Result: Success"
  {
    if Truthy(SuccessOf(r)) then "- Result: Success"
    else if tool == "run_command" then
      var output := OutputOf(r).GetOr("Unknown error");
      "- Result: Failed - " + (if output != "" then Split(output, "\n")[0] else "Command failed")
    else
      "- Result: Failed - " + (if r.Flagged? && Truthy(r.message) then Render(r.message) else "Unknown error")
  }

  /** The lines for a successful read: a duplicate is shown as a reference, a
      recent read with content shows the content (first 1000 characters),
      anything else the path and line count. */
  function ReadLines(r: Result, isRecent: bool): seq<string>
  {
    if r.ReadInfo? && r.contentInfo.FileReference? then
      var ci := r.contentInfo;
      ["- File: " + ci.filePath + " (" + IntToString(ci.lines) + " lines)",
       "- Content: [Duplicate of " + ci.duplicateOf + "]"]
    else if r.ReadInfo? && isRecent then
      var ci := r.contentInfo;
      if |ci.content| > 1000 then
        ["- Content: " + ci.content[..1000] + "... [truncated, " + IntToString(ci.lines) + " total lines]"]
      else ["- Content: " + ci.content]
    else if r.ReadInfo? then
      ["- File: " + r.contentInfo.filePath + " (" + IntToString(r.contentInfo.lines) + " lines)"]
    else ["- File: unknown (0 lines)"]
  }

  /** One grep match, read through the key `'line'`, which the match does not
      have: the line number always shows as `None`. */
  function MatchLine(i: nat, m: SearchOps.Match): string
  {
    "  " + IntToString(i + 1) + ". " + m.file + ":" + Render(VNone) + ": " + m.content
  }

  function GrepLines(matches: seq<SearchOps.Match>, isRecent: bool): (r: seq<string>)
    ensures |r| == 1 + (if isRecent && matches != [] then (if |matches| < 3 then |matches| else 3) + (if |matches| > 3 then 1 else 0) else 0)
    ensures r[0] == "- Found " + IntToString(|matches|) + " matches"
    ensures isRecent ==> forall i :: 0 <= i < 3 && i < |matches| ==> r[1 + i] == MatchLine(i, matches[i])
  {
    var shown := if |matches| < 3 then matches else matches[..3];
    ["- Found " + IntToString(|matches|) + " matches"]
    + (if isRecent && matches != [] then
         seq(|shown|, i requires 0 <= i < |shown| => MatchLine(i, shown[i]))
         + (if |matches| > 3 then ["  ... and " + IntToString(|matches| - 3) + " more matches"] else [])
       else [])
  }

  /** The edit-reasoning line of the successful-command summary: only an edit
      result carries reasoning, so a command result never shows one. */
  function ReasoningLines(r: Result, isRecent: bool): (ls: seq<string>)
    ensures ls != [] <==> r.EditResult? && r.reasoning != "" && isRecent
  {
    var reasoning := ReasoningOf(r);
    if reasoning != "" && isRecent then ["- Edit reasoning: " + Take(reasoning, 200) + "..."] else []
  }

  /** A successful command: what ran (flagged loudly when the user changed it),
      the first 200 characters of its output, and the edit reasoning. */
  function CommandLines(r: Result, isRecent: bool): seq<string>
  {
    var command := CommandOf(r).GetOr("Unknown command");
    var orig := OriginalOf(r);
    var output := OutputOf(r).GetOr("");
    (if orig.Some? && orig.value != "" then
       ["- ⚠️ COMMAND MODIFIED BY USER:", "  • You requested: " + orig.value,
        "  • User executed: " + command, "- IMPORTANT: Reference the executed command in responses"]
     else ["- Executed Command: " + command])
    + (if output != "" then ["- Output: " + Preview(output, 200)] else [])
    + ReasoningLines(r, isRecent)
  }

  /** A failed command: what ran, what was asked for if it differed, and the
      output (400 characters when recent, 150 otherwise). */
  function FailedCommandLines(r: Result, isRecent: bool): seq<string>
  {
    var command := CommandOf(r).GetOr("Unknown command");
    var orig := OriginalOf(r);
    var output := OutputOf(r).GetOr("No error details");
    ["- ❌ COMMAND FAILED: " + command]
    + (if orig.Some? && orig.value != "" then ["- Original Command: " + orig.value] else [])
    + (if output != "" then ["- Error Details: " + Preview(output, if isRecent then 400 else 150)] else [])
  }

  /** The lines after the `- Result` line, chosen by tool name and success. */
  function ToolLines(tool: string, r: Result, success: bool, isRecent: bool): seq<string>
  {
    if tool == "read_file" && success then ReadLines(r, isRecent)
    else if tool == "grep_search" && success then GrepLines(if r.GrepResult? then r.matches else [], isRecent)
    else if tool == "edit_file" && success then
      ["- Applied " + IntToString(if r.EditResult? then r.operations else 0) + " edit operations"]
    else if tool == "run_command" && success then CommandLines(r, isRecent)
    else if tool == "run_command" then FailedCommandLines(r, isRecent)
    else if tool == "list_dir" && success && r.ListResult? && r.tree != "" then
      ["- Directory structure:\n  " + Indent(r.tree)]
    else []
  }

  /** The summary's lines: the header, then, once the entry has a result, the
      status line and the tool-specific lines. */
  function FormatLines(a: Entry, isRecent: bool): (r: seq<string>)
    ensures |r| >= |HeaderLines(a)| && r[..|HeaderLines(a)|] == HeaderLines(a)
    ensures a.result.None? ==> r == HeaderLines(a)
    ensures a.result.Some? ==>
              |r| > |HeaderLines(a)| && r[|HeaderLines(a)|] == StatusLine(a.tool, a.result.value)
  {
    HeaderLines(a)
    + match a.result
      case None => []
      case Some(res) => [StatusLine(a.tool, res)] + ToolLines(a.tool, res, Truthy(SuccessOf(res)), isRecent)
  }

  /** `_format_action_for_context(action, is_recent)`. */
  function FormatText(a: Entry, isRecent: bool): (r: string)
    ensures StartsWith(r, "- Tool: " + a.tool + "\n- Reason: " + a.reason)
  {
    var lines := FormatLines(a, isRecent);
    var header := HeaderLines(a);
    assert lines[0] == lines[..|header|][0] == header[0];
    assert lines[1] == lines[..|header|][1] == header[1];
    JoinStarts(lines, "\n", header[0], header[1]);
    Join(lines, "\n")
  }

  /** A join of two or more parts starts with the first two and the separator. */
  lemma JoinStarts(parts: seq<string>, sep: string, first: string, second: string)
    requires |parts| > 1 && parts[0] == first && parts[1] == second
    ensures StartsWith(Join(parts, sep), first + sep + second)
  {
    var rest := parts[1..];
    assert Join(parts, sep) == first + sep + Join(rest, sep);
    if |rest| > 1 {
      assert Join(rest, sep) == second + sep + Join(rest[1..], sep);
    }
    assert StartsWith(Join(rest, sep), second);
  }

  /* ---------- _truncate_content_intelligently ---------- */

  const Marker: string := "... [truncated]"

  /** The first `j` sentences, each followed by ". ", as the sentence loop
      accumulates them. */
  function Acc(parts: seq<string>, j: nat): (r: string)
    requires j <= |parts|
    ensures j > 0 ==> |r| >= 2 && r[|r| - 2..] == ". "
    decreases j
  {
    if j == 0 then "" else Acc(parts, j - 1) + parts[j - 1] + ". "
  }

  /** How many sentences the loop keeps before one would overflow `limit`. */
  function Fit(parts: seq<string>, j: nat, limit: int): (n: nat)
    requires j <= |parts|
    ensures j <= n <= |parts|
    ensures n < |parts| ==> |Acc(parts, n + 1)| > limit
    ensures |Acc(parts, j)| <= limit ==> |Acc(parts, n)| <= limit
    decreases |parts| - j
  {
    if j < |parts| && |Acc(parts, j + 1)| <= limit then Fit(parts, j + 1, limit) else j
  }

  /** The text the sentence loop keeps, stripped. */
  function SentenceCut(content: string, limit: int): string
  {
    var parts := Split(content, ". ");
    Strip(Acc(parts, Fit(parts, 0, limit)))
  }

  /** The sentence cut is used when there are several sentences and it keeps a
      non-blank text. */
  predicate BySentence(content: string, limit: int)
  {
    |Split(content, ". ")| > 1 && SentenceCut(content, limit) != ""
  }

  /** The character fallback: the first `limit - 20` characters (a Python slice,
      so a negative count drops characters from the end), cut back to the last
      space when that keeps more than 80% of `limit`. */
  function CharCut(content: string, limit: int): string
    requires limit > 0
  {
    var t := PySliceTo(content, limit - 20);
    var sp := RFindChar(t, ' ');
    if 5 * sp > 4 * limit then t[..sp] else t
  }

  /** `_truncate_content_intelligently(content, char_limit)`. */
  function Truncate(content: string, limit: int): (r: Option<string>)
    ensures r.None? <==> limit <= 0
    ensures limit > 0 && |content| <= limit ==> r == Some(content)
    ensures limit > 0 && |content| > limit ==> r.Some? && EndsWith(r.value, Marker)
  {
    if limit <= 0 then None
    else if |content| <= limit then Some(content)
    else
      var body := if BySentence(content, limit) then SentenceCut(content, limit) else CharCut(content, limit);
      EndsWithAppend(body, Marker);
      Some(body + Marker)
  }

  /** The text is the sentences so far followed by the rest of the sentences. */
  lemma {:induction false} AccJoin(parts: seq<string>, j: nat)
    requires j < |parts|
    ensures Join(parts, ". ") == Acc(parts, j) + Join(parts[j..], ". ")
    decreases j
  {
    if j == 0 {
      assert parts[0..] == parts;
    } else {
      AccJoin(parts, j - 1);
      var tail := parts[j - 1..];
      assert tail[1..] == parts[j..];
      assert Join(tail, ". ") == parts[j - 1] + ". " + Join(parts[j..], ". ");
    }
  }

  /** After every sentence, the loop would hold the whole text and ". ". */
  lemma AccAll(parts: seq<string>)
    requires parts != []
    ensures Acc(parts, |parts|) == Join(parts, ". ") + ". "
  {
    var n := |parts|;
    AccJoin(parts, n - 1);
    assert parts[n - 1..] == [parts[n - 1]];
  }

  /** The kept sentences are a proper prefix of the text, within the limit. */
  lemma SentencePrefix(content: string, limit: int)
    requires 0 < limit < |content|
    ensures var parts := Split(content, ". ");
            var a := Acc(parts, Fit(parts, 0, limit));
            |a| <= limit && a == content[..|a|]
  {
    var parts := Split(content, ". ");
    assert Join(parts, ". ") == content;
    var n := Fit(parts, 0, limit);
    if n == |parts| {
      AccAll(parts);
      assert false;
    }
    AccJoin(parts, n);
  }

  /** On the sentence path the result is a prefix of the text, stripped, then the
      marker: it can run up to 14 characters past the limit. */
  lemma TruncateBySentence(content: string, limit: int)
    requires 0 < limit < |content| && BySentence(content, limit)
    ensures exists n :: 0 < n <= limit && Truncate(content, limit) == Some(Strip(content[..n]) + Marker)
    ensures |Truncate(content, limit).value| <= limit + 14
  {
    var parts := Split(content, ". ");
    var n := Fit(parts, 0, limit);
    var a := Acc(parts, n);
    SentencePrefix(content, limit);
    assert n > 0;
    assert IsSpace(a[|a| - 1]);
    assert |RStrip(a)| < |a|;
    assert a == content[..|a|];
  }

  /** On the character path with a limit of at least 20 the result is a prefix of
      the text then the marker, at most `limit - 5` characters, and a cut short of
      `limit - 20` characters ends just before a space. */
  lemma TruncateByChars(content: string, limit: int)
    requires 20 <= limit < |content| && !BySentence(content, limit)
    ensures exists n :: 0 <= n <= limit - 20 && Truncate(content, limit) == Some(content[..n] + Marker)
                        && (n < limit - 20 ==> content[n] == ' ' && 5 * n > 4 * limit)
    ensures |Truncate(content, limit).value| <= limit - 5
  {
    var n := CharCutShape(content, limit);
    assert Truncate(content, limit) == Some(CharCut(content, limit) + Marker);
  }

  /** The character cut is a prefix of the text of at most `limit - 20`
      characters; a shorter one stops just before a space. */
  lemma CharCutShape(content: string, limit: int) returns (n: nat)
    requires 20 <= limit < |content|
    ensures n <= limit - 20 && CharCut(content, limit) == content[..n]
    ensures n < limit - 20 ==> content[n] == ' ' && 5 * n > 4 * limit
  {
    var t := PySliceTo(content, limit - 20);
    var sp := RFindChar(t, ' ');
    n := if 5 * sp > 4 * limit then sp else |t|;
    assert t == content[..limit - 20];
  }

  /* ---------- _truncate_context_to_limit ---------- */

  predicate Important(section: string)
  {
    Contains(section, "File State Summary") || Contains(section, "Recent Action")
  }

  function ImportantOf(xs: seq<string>): (r: seq<string>)
    ensures forall k :: 0 <= k < |r| ==> Important(r[k])
    decreases |xs|
  {
    if xs == [] then [] else (if Important(xs[0]) then [xs[0]] else []) + ImportantOf(xs[1..])
  }

  function OthersOf(xs: seq<string>): (r: seq<string>)
    ensures forall k :: 0 <= k < |r| ==> !Important(r[k])
    decreases |xs|
  {
    if xs == [] then [] else (if Important(xs[0]) then [] else [xs[0]]) + OthersOf(xs[1..])
  }

  /** What each kept section costs in `current_length`: its length and 2. */
  function SumLen(xs: seq<string>): (n: int)
    ensures n >= 2 * |xs|
    decreases |xs|
  {
    if xs == [] then 0 else |xs[0]| + 2 + SumLen(xs[1..])
  }

  /** Sections kept by a loop, the `current_length` after it, and whether the last
      kept section is a cut one. */
  datatype Kept = Kept(sections: seq<string>, length: int, cut: bool)

  /** The loop over the important sections from `imp[i]` on: whole sections while
      they fit strictly, then at most one cut section (whose length is not added). */
  function KeepImportant(imp: seq<string>, i: nat, cur: int, max: int): (r: Kept)
    requires i <= |imp|
    ensures |r.sections| <= |imp| - i
    decreases |imp| - i
  {
    if i >= |imp| then Kept([], cur, false)
    else if cur + |imp[i]| + 2 < max then
      var k := KeepImportant(imp, i + 1, cur + |imp[i]| + 2, max);
      Kept([imp[i]] + k.sections, k.length, k.cut)
    else
      var rem := max - cur - 20;
      var t := if rem > 500 then Truncate(imp[i], rem) else None;
      if t.Some? && t.value != "" then Kept([t.value], cur, true) else Kept([], cur, false)
  }

  /** How many of the kept sections are whole. */
  function WholeCount(r: Kept): int
  {
    if r.cut then |r.sections| - 1 else |r.sections|
  }

  /** The important sections kept are whole leading sections, counted in the
      length, possibly followed by one cut section, which is not counted; with any
      whole section kept and nothing cut, the length stays under the cap. */
  predicate KeptShape(imp: seq<string>, i: nat, cur: int, max: int, r: Kept)
  {
    var whole := WholeCount(r);
    0 <= whole && i + whole <= |imp| && whole <= |r.sections| && r.sections[..whole] == imp[i..i + whole]
    && r.length == cur + SumLen(imp[i..i + whole])
    && (r.cut ==> EndsWith(r.sections[whole], Marker))
    && (r.sections != [] && !r.cut ==> r.length < max)
  }

  lemma KeptCons(imp: seq<string>, i: nat, cur: int, max: int, k: Kept)
    requires i < |imp| && cur + |imp[i]| + 2 < max
    requires KeptShape(imp, i + 1, cur + |imp[i]| + 2, max, k)
    ensures KeptShape(imp, i, cur, max, Kept([imp[i]] + k.sections, k.length, k.cut))
  {
    var r := Kept([imp[i]] + k.sections, k.length, k.cut);
    var kw := WholeCount(k);
    assert WholeCount(r) == kw + 1;
    assert r.sections[..kw + 1] == [imp[i]] + k.sections[..kw];
    var seg := imp[i..i + kw + 1];
    assert seg[0] == imp[i] && seg[1..] == imp[i + 1..i + 1 + kw];
    assert SumLen(seg) == |imp[i]| + 2 + SumLen(imp[i + 1..i + 1 + kw]);
    assert r.cut ==> r.sections[kw + 1] == k.sections[kw];
  }

  lemma {:induction false} KeepImportantShape(imp: seq<string>, i: nat, cur: int, max: int)
    requires i <= |imp|
    ensures KeptShape(imp, i, cur, max, KeepImportant(imp, i, cur, max))
    decreases |imp| - i
  {
    if i < |imp| && cur + |imp[i]| + 2 < max {
      KeepImportantShape(imp, i + 1, cur + |imp[i]| + 2, max);
      KeptCons(imp, i, cur, max, KeepImportant(imp, i + 1, cur + |imp[i]| + 2, max));
    } else if i < |imp| {
      assert imp[i..i] == [];
    } else {
      assert imp[i..i] == [];
    }
  }

  /** The loop over the other sections from `oth[i]` on: whole sections while they fit strictly. */
  function KeepOthers(oth: seq<string>, i: nat, cur: int, max: int): (r: seq<string>)
    requires i <= |oth|
    decreases |oth| - i
  {
    if i >= |oth| || cur + |oth[i]| + 2 >= max then []
    else
      var rest := KeepOthers(oth, i + 1, cur + |oth[i]| + 2, max);
      assert ([oth[i]] + rest)[1..] == rest;
      [oth[i]] + rest
  }

  /** The other sections kept fit strictly under the cap together. */
  lemma {:induction false} KeepOthersFit(oth: seq<string>, i: nat, cur: int, max: int)
    requires i <= |oth|
    ensures var r := KeepOthers(oth, i, cur, max);
            r != [] ==> cur + SumLen(r) < max
    decreases |oth| - i
  {
    if i < |oth| && cur + |oth[i]| + 2 < max {
      KeepOthersFit(oth, i + 1, cur + |oth[i]| + 2, max);
      var rest := KeepOthers(oth, i + 1, cur + |oth[i]| + 2, max);
      assert ([oth[i]] + rest)[1..] == rest;
    }
  }

  /** The other sections kept are the next ones, in order. */
  lemma {:induction false} KeepOthersPrefix(oth: seq<string>, i: nat, cur: int, max: int)
    requires i <= |oth|
    ensures var r := KeepOthers(oth, i, cur, max);
            |r| <= |oth| - i && r == oth[i..i + |r|]
    decreases |oth| - i
  {
    if i < |oth| && cur + |oth[i]| + 2 < max {
      KeepOthersPrefix(oth, i + 1, cur + |oth[i]| + 2, max);
      var rest := KeepOthers(oth, i + 1, cur + |oth[i]| + 2, max);
      assert oth[i..i + 1 + |rest|] == [oth[i]] + oth[i + 1..i + 1 + |rest|];
    }
  }

  /** `_truncate_context_to_limit(context)` with `max_context_chars = max`. */
  function FitToLimit(context: string, max: int): (r: string)
    ensures |context| <= max ==> r == context
  {
    if |context| <= max then context
    else
      var secs := Split(context, "\n\n");
      var k := KeepImportant(ImportantOf(secs), 0, 0, max);
      Join(k.sections + KeepOthers(OthersOf(secs), 0, k.length, max), "\n\n")
  }

  lemma {:induction false} JoinLength(xs: seq<string>)
    requires xs != []
    ensures |Join(xs, "\n\n")| == SumLen(xs) - 2
    decreases |xs|
  {
    if |xs| > 1 {
      JoinLength(xs[1..]);
    }
  }

  lemma {:induction false} SumLenAppend(a: seq<string>, b: seq<string>)
    ensures SumLen(a + b) == SumLen(a) + SumLen(b)
    decreases |a|
  {
    if a == [] {
      assert a + b == b;
    } else {
      assert (a + b)[1..] == a[1..] + b;
      SumLenAppend(a[1..], b);
    }
  }

  /** When no important section had to be cut, the result is under the cap. */
  lemma FitToLimitBound(context: string, max: int)
    requires |context| > max
    requires !KeepImportant(ImportantOf(Split(context, "\n\n")), 0, 0, max).cut
    ensures |FitToLimit(context, max)| < max || FitToLimit(context, max) == ""
  {
    var secs := Split(context, "\n\n");
    var imp := ImportantOf(secs);
    var k := KeepImportant(imp, 0, 0, max);
    KeepImportantShape(imp, 0, 0, max);
    assert k.sections == k.sections[..WholeCount(k)];
    var o := KeepOthers(OthersOf(secs), 0, k.length, max);
    KeepOthersFit(OthersOf(secs), 0, k.length, max);
    var all := k.sections + o;
    if all != [] {
      JoinLength(all);
      SumLenAppend(k.sections, o);
    }
  }

  /* ---------- _get_relevant_older_actions ---------- */

  /** `set(s.lower().split())`. */
  function WordSet(s: string): set<string>
  {
    set w | w in Words(Lower(s))
  }

  /** The text an older entry is scored on: its reason and its `target_file`. */
  function ActionText(a: Entry): string
  {
    a.reason + " " + GetText(a.params, "target_file")
  }

  /** The number of distinct query words the entry shares. */
  function Overlap(query: string, a: Entry): nat
  {
    |WordSet(query) * WordSet(ActionText(a))|
  }

  function Score(p: (int, Entry)): int
  {
    p.0
  }

  /** The scoring loop: `(overlap, action)` for each entry with a positive overlap, in order. */
  function ScoredOf(older: seq<Entry>, query: string): (r: seq<(int, Entry)>)
    ensures |r| <= |older|
    decreases |older|
  {
    if older == [] then []
    else
      var o := Overlap(query, older[0]);
      (if o > 0 then [(o, older[0])] else []) + ScoredOf(older[1..], query)
  }

  /** Every pair carries its entry's positive overlap with the query. */
  predicate ScoresMatch(r: seq<(int, Entry)>, query: string)
  {
    forall k :: 0 <= k < |r| ==> r[k].0 == Overlap(query, r[k].1) > 0
  }

  /** Every pair's entry is one of `older`. */
  predicate EntriesIn(r: seq<(int, Entry)>, older: seq<Entry>)
  {
    forall k :: 0 <= k < |r| ==> r[k].1 in older
  }

  /** Every scored pair carries its entry's positive overlap, and its entry comes from `older`. */
  lemma {:induction false} ScoredOfSound(older: seq<Entry>, query: string)
    ensures ScoresMatch(ScoredOf(older, query), query) && EntriesIn(ScoredOf(older, query), older)
    decreases |older|
  {
    if older != [] {
      var rest := ScoredOf(older[1..], query);
      ScoredOfSound(older[1..], query);
      var o := Overlap(query, older[0]);
      var head := if o > 0 then [(o, older[0])] else [];
      ScoresMatchAppend(head, rest, query);
      EntriesInCons(head, rest, older);
    }
  }

  lemma ScoresMatchAppend(a: seq<(int, Entry)>, b: seq<(int, Entry)>, query: string)
    requires ScoresMatch(a, query) && ScoresMatch(b, query)
    ensures ScoresMatch(a + b, query)
  {
    forall k | |a| <= k < |a + b| ensures (a + b)[k] == b[k - |a|] { }
  }

  lemma EntriesInCons(head: seq<(int, Entry)>, rest: seq<(int, Entry)>, older: seq<Entry>)
    requires older != [] && EntriesIn(head, [older[0]]) && EntriesIn(rest, older[1..])
    ensures EntriesIn(head + rest, older)
  {
    var r := head + rest;
    forall k | 0 <= k < |r| ensures r[k].1 in older {
      if k < |head| {
        assert head[k].1 in [older[0]];
      } else {
        var x := rest[k - |head|].1;
        assert r[k].1 == x && x in older[1..];
        var j :| 0 <= j < |older| - 1 && older[1..][j] == x;
        assert older[j + 1] == x;
      }
    }
  }

  /** Every entry with a positive overlap is scored. */
  lemma {:induction false} ScoredComplete(older: seq<Entry>, query: string, a: Entry)
    requires a in older && Overlap(query, a) > 0
    ensures (Overlap(query, a), a) in ScoredOf(older, query)
    decreases |older|
  {
    if older[0] != a {
      ScoredComplete(older[1..], query, a);
    }
  }

  /** `scored_actions.sort(key=lambda x: x[0], reverse=True)`. */
  function Ranked(older: seq<Entry>, query: string): seq<(int, Entry)>
  {
    SortDesc(ScoredOf(older, query), Score)
  }

  /** The ranking holds exactly the entries with a positive overlap, by
      non-increasing overlap, ties in history order. */
  lemma RankedFacts(older: seq<Entry>, query: string)
    ensures var r := Ranked(older, query);
            SortedDesc(r, Score)
            && (forall k :: 0 <= k < |r| ==> r[k].0 == Overlap(query, r[k].1) > 0 && r[k].1 in older)
            && (forall a :: a in older && Overlap(query, a) > 0 ==> (Overlap(query, a), a) in r)
            && (forall n :: WithKey(r, Score, n) == WithKey(ScoredOf(older, query), Score, n))
  {
    var sc := ScoredOf(older, query);
    var r := Ranked(older, query);
    ScoredOfSound(older, query);
    SortDescSorted(sc, Score);
    forall n {
      SortDescStable(sc, Score, n);
    }
    forall k | 0 <= k < |r| ensures r[k].0 == Overlap(query, r[k].1) > 0 && r[k].1 in older {
      SortDescMember(sc, Score, r[k]);
    }
    forall a | a in older && Overlap(query, a) > 0 ensures (Overlap(query, a), a) in r {
      ScoredComplete(older, query, a);
      assert (Overlap(query, a), a) in multiset(sc);
    }
  }

  lemma AppendAssoc<T>(a: seq<T>, b: seq<T>, c: seq<T>)
    ensures a + (b + c) == (a + b) + c
  {
  }

  /** The summary of each entry, in order. */
  function Summaries(es: seq<Entry>, isRecent: bool): (r: seq<string>)
    ensures |r| == |es|
  {
    seq(|es|, k requires 0 <= k < |es| => FormatText(es[k], isRecent))
  }

  /** A summary that did not fit `room` characters, cut to fit when there is room
      at all and the cut is not empty. */
  function CutTail(s: string, room: int): (r: Option<string>)
    requires |s| > room
    ensures r.Some? ==> room > 0 && EndsWith(r.value, Marker)
    ensures room > 0 ==> r.Some?
  {
    var t := Truncate(s, room);
    if t.Some? && t.value != "" then t else None
  }

  /** The summaries kept by a loop: the ones kept whole, then possibly one cut. */
  datatype Picked = Picked(whole: seq<string>, tail: Option<string>)

  function Items(p: Picked): seq<string>
  {
    p.whole + (if p.tail.Some? then [p.tail.value] else [])
  }

  /** The ranked entries alone. */
  function EntriesOf(ranked: seq<(int, Entry)>): (r: seq<Entry>)
    ensures |r| == |ranked|
    ensures forall k :: 0 <= k < |r| ==> r[k] == ranked[k].1
  {
    seq(|ranked|, k requires 0 <= k < |ranked| => ranked[k].1)
  }

  /** The budget loop over the ranked summaries from `sums[i]` on; `i` is also
      the number kept so far, since the loop stops at its first miss. */
  function Pick(sums: seq<string>, i: nat, used: int, budget: int): (r: Picked)
    requires i <= |sums|
    decreases |sums| - i
  {
    if i >= |sums| then Picked([], None)
    else
      var s := sums[i];
      if used + |s| <= budget then
        if i + 1 >= 5 then Picked([s], None)
        else
          var rest := Pick(sums, i + 1, used + |s|, budget);
          Picked([s] + rest.whole, rest.tail)
      else if budget - used > 500 then Picked([], CutTail(s, budget - used))
      else Picked([], None)
  }

  /** The older summaries in ranking order, as the budget loop meets them. */
  function RankedSummaries(older: seq<Entry>, query: string): seq<string>
  {
    Summaries(EntriesOf(Ranked(older, query)), false)
  }

  /** The budget loop of `_get_relevant_older_actions` over the ranked summaries. */
  function Relevant(sums: seq<string>, budget: int): seq<string>
  {
    Items(Pick(sums, 0, 0, budget))
  }

  /** `_get_relevant_older_actions(older_actions, current_query, char_budget)`. */
  function RelevantOlder(older: seq<Entry>, query: string, budget: int): seq<string>
  {
    Relevant(RankedSummaries(older, query), budget)
  }

  function PlainSum(xs: seq<string>): (n: nat)
    decreases |xs|
  {
    if xs == [] then 0 else |xs[0]| + PlainSum(xs[1..])
  }

  /** The whole summaries are the next ones in ranking order and fit the budget
      together; a cut one ends with the marker; at most `5 - i` are kept. */
  predicate PickedShape(sums: seq<string>, i: nat, used: int, budget: int, r: Picked)
    requires i <= |sums|
  {
    i + |r.whole| <= |sums|
    && r.whole == sums[i..i + |r.whole|]
    && (r.whole != [] ==> used + PlainSum(r.whole) <= budget)
    && (r.tail.Some? ==> EndsWith(r.tail.value, Marker))
    && (i < 5 ==> i + |r.whole| + (if r.tail.Some? then 1 else 0) <= 5)
  }

  /** The loop's first summary does not fit: at most one cut summary. */
  lemma PickMiss(sums: seq<string>, i: nat, used: int, budget: int)
    requires i < |sums| && used + |sums[i]| > budget
    ensures PickedShape(sums, i, used, budget, Pick(sums, i, used, budget))
  {
    var r := Pick(sums, i, used, budget);
    assert r.whole == [];
  }

  /** The loop's first summary fits and is the fifth: it ends the loop. */
  lemma PickLast(sums: seq<string>, i: nat, used: int, budget: int)
    requires i < |sums| && used + |sums[i]| <= budget && i + 1 >= 5
    ensures PickedShape(sums, i, used, budget, Pick(sums, i, used, budget))
  {
    assert Pick(sums, i, used, budget) == Picked([sums[i]], None);
    assert sums[i..i + 1] == [sums[i]];
  }

  lemma PickNext(sums: seq<string>, i: nat, used: int, budget: int)
    requires i < |sums| && used + |sums[i]| <= budget && i + 1 < 5
    requires PickedShape(sums, i + 1, used + |sums[i]|, budget, Pick(sums, i + 1, used + |sums[i]|, budget))
    ensures PickedShape(sums, i, used, budget, Pick(sums, i, used, budget))
  {
    var s := sums[i];
    var rest := Pick(sums, i + 1, used + |s|, budget);
    var w := [s] + rest.whole;
    assert Pick(sums, i, used, budget) == Picked(w, rest.tail);
    assert w[1..] == rest.whole;
    assert sums[i..i + |w|] == [s] + sums[i + 1..i + 1 + |rest.whole|];
  }

  lemma {:induction false} PickShape(sums: seq<string>, i: nat, used: int, budget: int)
    requires i <= |sums|
    ensures PickedShape(sums, i, used, budget, Pick(sums, i, used, budget))
    decreases |sums| - i
  {
    if i < |sums| {
      if used + |sums[i]| > budget {
        PickMiss(sums, i, used, budget);
      } else if i + 1 >= 5 {
        PickLast(sums, i, used, budget);
      } else {
        PickShape(sums, i + 1, used + |sums[i]|, budget);
        PickNext(sums, i, used, budget);
      }
    }
  }

  /** At most 5 summaries are kept; the whole ones are the first summaries, in
      order, and fit the budget together; a cut one comes last and ends with the
      marker. */
  lemma RelevantShape(sums: seq<string>, budget: int)
    ensures var r := Pick(sums, 0, 0, budget);
            |Relevant(sums, budget)| <= 5
            && |r.whole| <= |sums| && r.whole == sums[..|r.whole|]
            && (r.whole != [] ==> PlainSum(r.whole) <= budget)
            && (r.tail.Some? ==> EndsWith(r.tail.value, Marker))
  {
    PickShape(sums, 0, 0, budget);
  }

  /** At most 5 older summaries; the whole ones are the summaries of the
      best-ranked entries, in ranking order, and fit the budget together; a cut
      one comes last and ends with the marker. */
  lemma RelevantOlderShape(older: seq<Entry>, query: string, budget: int)
    ensures var sums := Summaries(EntriesOf(Ranked(older, query)), false);
            var r := Pick(sums, 0, 0, budget);
            |RelevantOlder(older, query, budget)| <= 5
            && |r.whole| <= |sums| && r.whole == sums[..|r.whole|]
            && (r.whole != [] ==> PlainSum(r.whole) <= budget)
            && (r.tail.Some? ==> EndsWith(r.tail.value, Marker))
  {
    RelevantShape(RankedSummaries(older, query), budget);
  }

  /* ---------- get_contextual_history ---------- */

  /** `int(m * 0.9)`, truncating toward zero. */
  function NinetyPercent(m: int): int
  {
    if m >= 0 then m * 9 / 10 else -((-m) * 9 / 10)
  }

  /** `full_history[-5:]`, all of it when shorter. */
  function RecentOf(history: seq<Entry>): (r: seq<Entry>)
    ensures |r| == if |history| < 5 then |history| else 5
    ensures r == history[|history| - |r|..]
  {
    if |history| >= 5 then history[|history| - 5..] else history
  }

  /** `full_history[:-5]`, empty when there are at most 5 entries. */
  function OlderOf(history: seq<Entry>): (r: seq<Entry>)
    ensures |history| > 5 ==> r == history[..|history| - 5]
    ensures |history| <= 5 ==> r == []
  {
    if |history| > 5 then history[..|history| - 5] else []
  }

  function Label(i: int): string
  {
    "Recent Action " + IntToString(i) + ":\n"
  }

  /** The recent summaries kept and `total_chars` after them. */
  datatype RecentRun = RecentRun(kept: Picked, total: int)

  /** The loop over the recent summaries from `sums[i]` on: whole summaries while
      they fit, then at most one cut summary, and the loop stops there. */
  function RecentLoop(sums: seq<string>, i: nat, total: int, avail: int): (r: RecentRun)
    requires i <= |sums|
    decreases |sums| - i
  {
    if i >= |sums| then RecentRun(Picked([], None), total)
    else
      var s := sums[i];
      if total + |s| <= avail then
        var rest := RecentLoop(sums, i + 1, total + |s| + 20, avail);
        RecentRun(Picked([s] + rest.kept.whole, rest.kept.tail), rest.total)
      else
        var t := CutTail(s, avail - total);
        RecentRun(Picked([], t), if t.Some? then total + |t.value| + 20 else total)
  }

  /** The recent summaries kept whole are `sums[i..]` in order; a cut one ends
      with the marker and stands for the next summary. */
  predicate RecentShape(sums: seq<string>, i: nat, r: Picked)
    requires i <= |sums|
  {
    i + |r.whole| <= |sums|
    && r.whole == sums[i..i + |r.whole|]
    && (r.tail.Some? ==> i + |r.whole| < |sums| && EndsWith(r.tail.value, Marker))
  }

  lemma {:induction false} RecentLoopShape(sums: seq<string>, i: nat, total: int, avail: int)
    requires i <= |sums|
    ensures RecentShape(sums, i, RecentLoop(sums, i, total, avail).kept)
    decreases |sums| - i
  {
    if i < |sums| {
      var s := sums[i];
      if total + |s| <= avail {
        var rest := RecentLoop(sums, i + 1, total + |s| + 20, avail);
        RecentLoopShape(sums, i + 1, total + |s| + 20, avail);
        var w := [s] + rest.kept.whole;
        assert w[1..] == rest.kept.whole;
        assert sums[i..i + |w|] == [s] + sums[i + 1..i + 1 + |rest.kept.whole|];
      }
    }
  }

  /** Summaries labelled `Recent Action 1`, `Recent Action 2`, ... in order. */
  function LabelAll(items: seq<string>): seq<string>
    decreases |items|
  {
    if items == [] then []
    else LabelAll(items[..|items| - 1]) + [Label(|items|) + items[|items| - 1]]
  }

  /** The labelled parts of a recent run. */
  function Labelled(r: Picked): seq<string>
  {
    LabelAll(Items(r))
  }

  lemma LabelAllSnoc(items: seq<string>, x: string)
    ensures LabelAll(items + [x]) == LabelAll(items) + [Label(|items| + 1) + x]
  {
    assert (items + [x])[..|items|] == items;
  }

  /** The `k`-th labelled part is the `k`-th summary under `Recent Action k+1`. */
  lemma {:induction false} LabelAllAt(items: seq<string>, k: nat)
    requires k < |items|
    ensures |LabelAll(items)| == |items| && LabelAll(items)[k] == Label(k + 1) + items[k]
    decreases |items|
  {
    var init := items[..|items| - 1];
    if k < |init| {
      LabelAllAt(init, k);
    } else if init != [] {
      LabelAllAt(init, 0);
    }
  }

  lemma LabelledAt(r: Picked, k: nat)
    requires k < |Items(r)|
    ensures |Labelled(r)| == |Items(r)| && Labelled(r)[k] == Label(k + 1) + Items(r)[k]
  {
    LabelAllAt(Items(r), k);
  }

  /** The older loop: whole summaries while they fit the available characters. */
  function OlderParts(rel: seq<string>, i: nat, total: int, avail: int): (r: seq<string>)
    requires i <= |rel|
    decreases |rel| - i
  {
    if i >= |rel| || total + |rel[i]| > avail then []
    else [rel[i]] + OlderParts(rel, i + 1, total + |rel[i]| + 2, avail)
  }

  /** The older summaries added are the leading relevant ones, in order, and each
      one added fits what is left of the available characters. */
  lemma {:induction false} OlderPartsPrefix(rel: seq<string>, i: nat, total: int, avail: int)
    requires i <= |rel|
    ensures var r := OlderParts(rel, i, total, avail);
            |r| <= |rel| - i && r == rel[i..i + |r|] && (r != [] ==> total + |r[0]| <= avail)
    decreases |rel| - i
  {
    if i < |rel| && total + |rel[i]| <= avail {
      OlderPartsPrefix(rel, i + 1, total + |rel[i]| + 2, avail);
      var rest := OlderParts(rel, i + 1, total + |rel[i]| + 2, avail);
      assert rel[i..i + 1 + |rest|] == [rel[i]] + rel[i + 1..i + 1 + |rest|];
    }
  }

  /** The parts so far and `total_chars`. */
  datatype Progress = Progress(parts: seq<string>, total: int)

  /** The parts after the recent tier and the file summary: the summary goes in
      front when the cache is not empty, the parts so far use under 80% of the
      available characters, and it fits. */
  function WithSummary(p: Progress, avail: int, hasFiles: bool, summary: string): Progress
  {
    if hasFiles && 5 * p.total < 4 * avail && p.total + |summary| <= avail then
      Progress([summary] + p.parts, p.total + |summary| + 2)
    else p
  }

  /** The recent tier over the recent summaries `sums`: the labelled summaries it
      keeps and `total_chars` after them. */
  function RecentStage(sums: seq<string>, avail: int): Progress
  {
    var run := RecentLoop(sums, 0, 0, avail);
    Progress(Labelled(run.kept), run.total)
  }

  /** The older tier over the ranked older summaries `ranked`, entered when more
      than 5000 characters are left and there are older actions: the relevant
      ones that still fit go after the parts. */
  function OlderStage(ranked: seq<string>, hasOlder: bool, avail: int, p: Progress): seq<string>
  {
    var remaining := avail - p.total;
    if remaining > 5000 && hasOlder then
      p.parts + OlderParts(Relevant(ranked, remaining), 0, p.total, avail)
    else p.parts
  }

  /** The parts joined by blank lines, fitted to the limit when over it. */
  function Assemble(parts: seq<string>, max: int): string
  {
    var joined := Join(parts, "\n\n");
    if |joined| > max then FitToLimit(joined, max) else joined
  }

  /** `get_contextual_history(full_history, current_query)`; `hasFiles` and
      `summary` are the cache's state and its `_get_file_state_summary()`. */
  function ContextualHistory(history: seq<Entry>, query: string, max: int, hasFiles: bool,
                             summary: string): (r: string)
    ensures history == [] ==> r == "No previous actions."
  {
    if history == [] then "No previous actions."
    else
      HistoryText(Summaries(RecentOf(history), true), RankedSummaries(OlderOf(history), query),
                  OlderOf(history) != [], max, hasFiles, summary)
  }

  /** The budget logic of `get_contextual_history` for a non-empty history, over
      the formatted recent summaries and the ranked older summaries. */
  function HistoryText(recent: seq<string>, ranked: seq<string>, hasOlder: bool, max: int, hasFiles: bool,
                       summary: string): string
  {
    var avail := NinetyPercent(max);
    var p := WithSummary(RecentStage(recent, avail), avail, hasFiles, summary);
    Assemble(OlderStage(ranked, hasOlder, avail, p), max)
  }

  /** The recent tier's parts: part k is `Recent Action k:` followed by the k-th
      recent summary, whole except possibly the last, which is then cut. */
  lemma RecentStageShape(sums: seq<string>, avail: int) returns (kept: seq<string>)
    ensures var parts := RecentStage(sums, avail).parts;
            |parts| == |kept| <= |sums|
            && (forall k :: 0 <= k < |parts| ==> parts[k] == Label(k + 1) + kept[k])
    ensures forall k :: 0 <= k < |kept| ==>
              kept[k] == sums[k] || (k == |kept| - 1 && EndsWith(kept[k], Marker))
  {
    var run := RecentLoop(sums, 0, 0, avail);
    RecentLoopShape(sums, 0, 0, avail);
    kept := Items(run.kept);
    var parts := LabelAll(kept);
    if kept != [] {
      LabelAllAt(kept, 0);
    }
    forall k | 0 <= k < |parts|
      ensures parts[k] == Label(k + 1) + kept[k]
    {
      LabelAllAt(kept, k);
    }
  }

  /** The older tier appends a prefix of the relevant older summaries for the
      budget left, and only when more than 5000 characters are left and there
      are older actions. */
  lemma OlderStageShape(ranked: seq<string>, hasOlder: bool, avail: int, p: Progress)
    returns (older: seq<string>)
    ensures OlderStage(ranked, hasOlder, avail, p) == p.parts + older
    ensures older != [] ==> avail - p.total > 5000 && hasOlder
    ensures var rel := Relevant(ranked, avail - p.total);
            |older| <= |rel| <= 5 && older == rel[..|older|]
  {
    var rel := Relevant(ranked, avail - p.total);
    RelevantShape(ranked, avail - p.total);
    if avail - p.total > 5000 && hasOlder {
      older := OlderParts(rel, 0, p.total, avail);
      OlderPartsPrefix(rel, 0, p.total, avail);
    } else {
      older := [];
      assert p.parts + older == p.parts;
    }
  }

  /** The text for a non-empty history: the file summary when it was added, then
      `Recent Action k:` and the k-th kept recent summary (the last one possibly
      cut), then a prefix of the relevant older summaries for the budget left,
      all joined by blank lines; when the join is over `max` it is fitted, and is
      then under `max` (or empty) unless an important section had to be cut. */
  lemma HistoryTextShape(recent: seq<string>, ranked: seq<string>, hasOlder: bool, max: int, hasFiles: bool,
                         summary: string)
    returns (front: seq<string>, labelled: seq<string>, kept: seq<string>, budget: int, older: seq<string>)
    ensures var joined := Join(front + labelled + older, "\n\n");
            HistoryText(recent, ranked, hasOlder, max, hasFiles, summary)
            == if |joined| <= max then joined else FitToLimit(joined, max)
    ensures front == [] || (hasFiles && front == [summary])
    ensures |labelled| == |kept| <= |recent|
    ensures forall k :: 0 <= k < |labelled| ==> labelled[k] == Label(k + 1) + kept[k]
    ensures forall k :: 0 <= k < |kept| ==>
              kept[k] == recent[k] || (k == |kept| - 1 && EndsWith(kept[k], Marker))
    ensures older != [] ==> budget > 5000 && hasOlder
    ensures var rel := Relevant(ranked, budget);
            |older| <= |rel| <= 5 && older == rel[..|older|]
    ensures var joined := Join(front + labelled + older, "\n\n");
            |joined| > max && !KeepImportant(ImportantOf(Split(joined, "\n\n")), 0, 0, max).cut
            ==> var r := HistoryText(recent, ranked, hasOlder, max, hasFiles, summary);
                |r| < max || r == ""
  {
    var avail := NinetyPercent(max);
    var p0 := RecentStage(recent, avail);
    kept := RecentStageShape(recent, avail);
    labelled := p0.parts;
    front := if hasFiles && 5 * p0.total < 4 * avail && p0.total + |summary| <= avail then [summary] else [];
    var p := WithSummary(p0, avail, hasFiles, summary);
    assert p.parts == front + labelled;
    budget := avail - p.total;
    older := OlderStageShape(ranked, hasOlder, avail, p);
    var joined := Join(front + labelled + older, "\n\n");
    if |joined| > max && !KeepImportant(ImportantOf(Split(joined, "\n\n")), 0, 0, max).cut {
      FitToLimitBound(joined, max);
    }
  }

  /** `get_contextual_history` for a non-empty history: the cache's file
      summary when it was added, then `Recent Action k:` and the k-th of the
      last five actions formatted as recent (the last one possibly cut), then a
      prefix of the relevant older summaries for the budget left, all joined by
      blank lines, and fitted only when over `max`, which then brings it under
      `max` unless an important section had to be cut. */
  lemma ContextualHistoryShape(history: seq<Entry>, query: string, max: int, hasFiles: bool, summary: string)
    returns (front: seq<string>, labelled: seq<string>, kept: seq<string>, budget: int, older: seq<string>)
    requires history != []
    ensures var joined := Join(front + labelled + older, "\n\n");
            ContextualHistory(history, query, max, hasFiles, summary)
            == if |joined| <= max then joined else FitToLimit(joined, max)
    ensures front == [] || (hasFiles && front == [summary])
    ensures |labelled| == |kept| <= |RecentOf(history)| <= 5
    ensures forall k :: 0 <= k < |labelled| ==> labelled[k] == Label(k + 1) + kept[k]
    ensures forall k :: 0 <= k < |kept| ==>
              kept[k] == Summaries(RecentOf(history), true)[k] || (k == |kept| - 1 && EndsWith(kept[k], Marker))
    ensures older != [] ==> budget > 5000 && |history| > 5
    ensures var rel := Relevant(RankedSummaries(OlderOf(history), query), budget);
            |older| <= |rel| <= 5 && older == rel[..|older|]
    ensures var joined := Join(front + labelled + older, "\n\n");
            |joined| > max && !KeepImportant(ImportantOf(Split(joined, "\n\n")), 0, 0, max).cut
            ==> var r := ContextualHistory(history, query, max, hasFiles, summary);
                |r| < max || r == ""
  {
    var recent := Summaries(RecentOf(history), true);
    var ranked := RankedSummaries(OlderOf(history), query);
    front, labelled, kept, budget, older := HistoryTextShape(recent, ranked, OlderOf(history) != [], max, hasFiles, summary);
  }

  /** A cut over fewer than 20 characters of room: the character fallback's
      `content[:char_limit - 20]` has a negative bound, so it drops only a few
      characters from the end, and the result is far over the limit. Forty
      letters truncated to 5 characters come back as 40 characters. */
  lemma TruncateSmallLimit()
    ensures var c := seq(40, k => 'a');
            Truncate(c, 5) == Some(c[..25] + Marker) && |Truncate(c, 5).value| == 40
  {
    var c := seq(40, k => 'a');
    forall j: nat | j <= |c| ensures !OccursAt(c, ". ", j) {
      if j + 2 <= |c| {
        assert c[j..j + 2][0] == 'a';
      }
    }
    assert Split(c, ". ") == [c];
    var t := PySliceTo(c, -15);
    assert t == c[..25];
    assert RFindChar(t, ' ') == -1 by {
      forall k | 0 <= k < |t| ensures t[k] != ' ' {
        assert t[k] == 'a';
      }
    }
    assert CharCut(c, 5) == c[..25];
  }
}
