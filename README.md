# A verified model of the PocketFlow coding agent

The repository is a small coding agent built on the PocketFlow node/flow
framework. A decision node asks a language model which tool to use next. The
answer is a fenced JSON object that names the tool, a reason and parameters.
The flow then routes to one of seven handlers:

- `read_file`, `grep_search`, `list_dir`, `delete_file` and `run_command`;
- `edit_file`, a sub-flow that reads the target, asks the model for line-range
  edit operations and applies them bottom-up with `replace_file`;
- `finish`.

Every handler records its result on the last history entry and returns to
the decision node. A `ContextManager` deduplicates file contents by
fingerprint and compacts the history into the prompt within a character
budget.

This project models that core in Dafny:

- the file utilities work on a file system of text files, a class
  `FileTools.Workspace` whose `files: map<string, string>` the methods update;
- `readlines`/`writelines` are `Lines.SplitLines`/`Lines.Concat`;
- the search, listing and command utilities take what the operating system
  would report as parameters;
- the context manager is a class proved against functions on its state
  (`ContextCache.Cache`);
- the shared store of one run is the class `Flow.Shared`, and each node is
  one of its methods, proved against the prep functions and the utilities'
  specifications;
- the flow graph is a pair of successor functions.

Modules: `Wrappers`, `Text` (Python `str` operations), `Lines` and `Files`,
`RemoveFile`, `InsertFile`, `ReplaceFile`, `FileTools`, `StableSort`,
`EditPlan`, `ReadFile`, `SearchOps`, `DirItems`, `DirOps`, `DirOpsOld`,
`RunCommand`, `History`, `ContextText`, `ContextCache` and `Flow`.

The model follows the code where the code does something surprising. Each
case below is a proved property of the model, not a correction:

- `delete_file` and `replace_file` return `(message, success)`, but
  `DeleteFileAction.post` and `ApplyChangesNode.post` unpack the pair as
  `(success, message)`. The history therefore records the message as
  "success" and the flag as "message" (`Flow.Shared.DeleteNode`,
  `Flow.Details`).
- `all(success ...)` in `ApplyChangesNode.post` tests the messages. Every
  message `replace_file` returns is non-empty, so a recorded edit result
  always says success, even when every operation was refused
  (`Flow.EditAlwaysSuccessful`, `Flow.FailedEditRecordedAsSuccess`).
- `command_modification` is written when the web UI changed a command and is
  never removed. Every later command in the same run is reported as the
  modified one (`Flow.Recorded`, `Flow.Shared.CommandPost`).
- `ReadTargetFileNode` stores the read's text as `file_content` even when the
  read failed. The edit planner then plans against the error message, which
  counts one line more than the newlines of the path, so for a missing target
  only operations on that many lines pass (`ReadFile.MissingReadNewlines`).
  For an existing target the count is the file's own, and an accepted plan
  with non-overlapping operations is carried out in full
  (`Flow.AcceptedPlanSplices`).
- `insert_file` into a missing file pads with empty strings and adds a
  newline to the last one only, so for any `line_number >= 2` the block
  becomes line 2 (`InsertFile.InsertIntoMissing`). Into an existing file
  whose last line lacks its newline, the first padding newline only
  completes that line, so a block asked for past the end lands one line
  early (`InsertFile.InsertPastEnd`).
- `ApplyChangesNode.prep` returns an empty batch for an empty plan before it
  looks at the history.
- The greedy JSON pattern of `MainDecisionAgent` runs from the first
  ```` ```json ```` to the last fence in the reply. Two fenced blocks
  therefore come back as one text (`Flow.ExtractTwoBlocks`).
- The `len(json_blocks) > 1` guards of `AnalyzeAndPlanNode` always hold
  (`Flow.PlanJson`).
- In `RunCommandAction.post` the test for `"server"` never decides, because
  `"server"` contains `"serve"` (`Flow.ServerTestRedundant`).
- `flow.py` imports `get_streamlit_approval` from `utils/run_command.py`,
  which does not define it. The web UI's answer is therefore a parameter
  `(approved, final command)`.
- `get_cache_stats()` reports `unique_content_hashes == cached_files`, so the
  deduplication ratio is always 1.0 or 0.0 (`ContextCache.HashCount`,
  `ContextCache.RatioIsOneOrZero`).

## Model

| member | source | states |
|---|---|---|
| `Lines.SplitLines` | utils/read_file.py:33 | `readlines()` of text without `\r` gives no lines exactly for the empty text |
| `Lines.ConcatSplit` | utils/remove_file.py:58 | for text without `\r`, writing back what `readlines()` returned reproduces the text |
| `Lines.SplitConcat` | utils/insert_file.py:75 | reading back well-formed lines written by `writelines` gives the same lines |
| `Lines.SplitLinesWellFormed` | utils/read_file.py:33 | every line `readlines()` returns is one line, and only the last may lack its newline |
| `Lines.LineCount` | utils/replace_file.py:123 | for text without `\r`, `len(readlines())` is the number of newlines, plus one for an unterminated last line |
| `Lines.LastLineTerminated` | utils/insert_file.py:60-61 | the last line ends with a newline exactly when the text does |
| `Files.FullPath` | flow.py:252-253 | an empty working directory or an absolute file path leaves the path as given |
| `ReadFile.NumberFrom` | utils/read_file.py:32-36 | line `k` of the output is line `k` of the input numbered `first + k` |
| `ReadFile.RangeError` | utils/read_file.py:39-47 | no error exactly for `1 <= start <= end` with at most 250 lines |
| `ReadFile.Selected` | utils/read_file.py:60-65 | the lines `start` to `min(end, length)`, in order |
| `ReadFile.ReadFile` | utils/read_file.py:4-68 | a missing file gives its message; a whole read always succeeds; a ranged read succeeds exactly when the range is valid and starts inside the file, and otherwise returns the matching error |
| `ReadFile.NumberedWellFormed` | utils/read_file.py:32-36 | numbering keeps well-formed lines well formed |
| `ReadFile.WholeRead` | utils/read_file.py:28-36 | read back, a whole read is every line numbered from 1 |
| `ReadFile.WholeReadNewlines` | utils/read_file.py:28-36 | a whole read holds exactly as many newlines as the file, so the line count taken from it is the file's own |
| `ReadFile.MissingReadNewlines` | utils/read_file.py:24-25 | a missing file reads as its message, which holds only the newlines of the path |
| `ReadFile.RangedRead` | utils/read_file.py:39-65 | a successful ranged read is lines `start` to `min(end, length)`, at most 250, each with its own number |
| `RemoveFile.NewText` | utils/remove_file.py:42-58 | removing a range of lines never lengthens the text |
| `RemoveFile.Spec` | utils/remove_file.py:4-71 | success exactly for an existing file and a valid range; on failure nothing is written; on success only the target changes |
| `RemoveFile.InvalidRangeMessage` | utils/remove_file.py:32-39 | each bad range gets its own message, checked in the order `remove_file` checks them |
| `RemoveFile.StartPastEndIsNoOp` | utils/remove_file.py:47-48 | a start past the last line leaves the text unchanged |
| `RemoveFile.RemovesRange` | utils/remove_file.py:42-58 | the lines `[s, e]`, with `e` clamped and absent bounds defaulted, are cut out and the rest keep their order |
| `RemoveFile.KeptLinesWellFormed` | utils/remove_file.py:54-58 | what remains after the cut is still well-formed lines |
| `InsertFile.Block` | utils/insert_file.py:60-61 | the content ends with a newline, which is added only when missing |
| `InsertFile.Placeholders` | utils/insert_file.py:38-46 | a missing file starts from `line_number - 1` empty lines |
| `InsertFile.InsertAt` | utils/insert_file.py:53-71 | the block lands at index `line_number - 1` of a list one entry longer than the padded lines, and no text is lost |
| `InsertFile.NewText` | utils/insert_file.py:36-75 | inserting into an existing file keeps at least its text and adds at least the block |
| `InsertFile.Spec` | utils/insert_file.py:4-80 | success exactly when there is no line number or it is at least 1; no line number replaces the whole file; otherwise only the target changes |
| `InsertFile.InsertInside` | utils/insert_file.py:64-71 | the block's lines come in at line `n`; lines before stay put and the others move down |
| `InsertFile.InsertAtEnd` | utils/insert_file.py:64-71 | right after the end the block is appended, after a newline when the old last line lacked one |
| `InsertFile.InsertPastEnd` | utils/insert_file.py:56-57 | further past the end the old text is followed by `n - 1 - length` newlines and the block; when the old last line lacks its newline the first newline only completes it, so the block lands at line `n - 1` |
| `InsertFile.InsertIntoMissing` | utils/insert_file.py:38-71 | a missing file gets the bare block for line 1, and one newline then the block, i.e. the block at line 2, for any later line |
| `ReplaceFile.Created` | utils/replace_file.py:22-27 | a missing target exists afterwards and is empty; an existing one is unchanged |
| `ReplaceFile.MissingIsCreatedEmpty` | utils/replace_file.py:22-27 | replacing in a missing target acts as replacing in an empty one |
| `ReplaceFile.InvalidRangeFails` | utils/replace_file.py:30-37 | a bad range fails with the matching message and writes only the empty file a missing target gets |
| `ReplaceFile.ValidRangeSucceeds` | utils/replace_file.py:40-51 | with a valid range both steps succeed, the success message is returned and only the target changes |
| `ReplaceFile.Spliced` | utils/replace_file.py:40-49 | the line count after splicing the block over `[s, e]` |
| `ReplaceFile.ReplaceInside` | utils/replace_file.py:40-49 | a range ending before the last line: the lines after it survive |
| `ReplaceFile.ReplaceToEnd` | utils/replace_file.py:40-49 | a range reaching the last line: the block ends the file |
| `ReplaceFile.ReplaceAfterEnd` | utils/replace_file.py:46-49 | a start right after a terminated last line is a pure append |
| `ReplaceFile.ReplacesLines` | utils/replace_file.py:6-54 | for a start line inside the file or just after it, the lines read back are the old ones before `s`, the block's lines, then the old ones after `e` |
| `ReplaceFile.AppendAfterUnterminated` | utils/replace_file.py:40-49 | a start right after a last line without a newline removes nothing, completes that line and appends the block |
| `ReplaceFile.PastEndPads` | utils/replace_file.py:46-49 | a start past the end keeps the old text and pads with newlines before the block |
| `ReplaceFile.NewText` | utils/replace_file.py:39-49 | the text after a valid replacement is at least as long as the newline-terminated block |
| `ReplaceFile.Spec` | utils/replace_file.py:6-54 | success exactly for `1 <= start_line <= end_line`; whatever the outcome, the target exists afterwards and no other file changes |
| `FileTools.DeleteSpec` | utils/delete_file.py:4-22 | success exactly for an existing file, and the file is gone afterwards |
| `FileTools.Workspace.constructor` | utils/delete_file.py:14-19 | the workspace holds the given files |
| `FileTools.Workspace.RemoveFile` | utils/remove_file.py:4-71 | message, flag and new file system are those of `RemoveFile.Spec` |
| `FileTools.Workspace.InsertFile` | utils/insert_file.py:4-80 | message, flag and new file system are those of `InsertFile.Spec`, with the padding loop |
| `FileTools.InsertLines` | utils/insert_file.py:56-71 | padding one blank line at a time and then inserting gives `InsertFile.InsertAt` |
| `FileTools.Workspace.ReplaceFile` | utils/replace_file.py:6-54 | the two steps run on the workspace; the result is `ReplaceFile.Spec` |
| `FileTools.Workspace.DeleteFile` | utils/delete_file.py:4-22 | message, flag and new file system are those of `DeleteSpec` |
| `StableSort.SortDesc` | flow.py:707 | `sorted(..., reverse=True)` is a permutation of its input |
| `StableSort.SortDescSorted` | flow.py:707 | the result is in non-increasing key order |
| `StableSort.SortDescStable` | flow.py:707 | elements with equal keys keep their input order |
| `StableSort.SortDescPairwise` | flow.py:707 | a relation that holds between every two elements still does after sorting |
| `EditPlan.TotalLines` | flow.py:591-592 | the plan's line count is the number of newlines plus one |
| `EditPlan.CheckOps` | flow.py:675-681 | no error exactly when every operation is in range; an error is that of some operation |
| `EditPlan.ValidatedFits` | flow.py:679-681 | an accepted operation starts inside the file read back, or just after it |
| `EditPlan.Locality` | flow.py:707 | edits confined to the first lines do not see what follows |
| `EditPlan.BottomUpIsSplice` | flow.py:707 | applying a chain of edits from the bottom up equals splicing each into the original numbering |
| `EditPlan.ApplyTextLines` | flow.py:725-737 | the text built by successive `replace_file` calls holds the lines `ApplyLines` computes |
| `EditPlan.SpliceAll` | flow.py:707 | no operations leave the lines alone; the lines under the lowest operation's start keep their place and text |
| `EditPlan.ApplyText` | flow.py:730-737 | after the successive `replace_file` calls the text is at least as long as the last operation's block |
| `EditPlan.Tag` | flow.py:725-726 | every operation gets the full target path, in order |
| `EditPlan.Prepare` | flow.py:698-728 | one tagged operation per input operation, each on the full path |
| `EditPlan.PrepareOrder` | flow.py:707 | the batch is the input reordered by descending start line, stably, with nothing added or lost |
| `EditPlan.Batch` | flow.py:730-737 | one `(message, success)` pair per operation |
| `EditPlan.RunBatch` | flow.py:730-737 | the loop leaves the file system and the results `Batch` computes |
| `EditPlan.SortedApartIsChain` | flow.py:707 | valid operations sorted by start line and pairwise apart form a chain |
| `EditPlan.BatchStep` | flow.py:730-737 | a valid range always succeeds and writes its replacement |
| `EditPlan.BatchIsApplyText` | flow.py:725-737 | a chain on one target writes exactly `ApplyText` |
| `EditPlan.BatchAllSucceed` | flow.py:730-737 | every step of a chain reports success |
| `EditPlan.BatchSplices` | flow.py:697-737 | operations within the target's newline count plus one, pairwise non-overlapping, prepared and run, leave the target holding every edit spliced into the original numbering, each step succeeding |
| `SearchOps.Anchor` | utils/search_ops.py:104 | the pattern is anchored with `^` and `$` |
| `SearchOps.TranslateIsGlobEach` | utils/search_ops.py:98-101 | the three `replace` passes act as one pass of the per-character translation |
| `SearchOps.Usable` | utils/search_ops.py:92-107 | a part gives a pattern only when it is non-blank and its anchored translation compiles |
| `SearchOps.PatternsFromParts` | utils/search_ops.py:92-109 | every pattern comes from a usable comma part |
| `SearchOps.PatternsAllCompile` | utils/search_ops.py:92-109 | when every translation compiles, each non-blank part gives exactly one pattern |
| `SearchOps.GlobToRegex` | utils/search_ops.py:88-109 | at most one pattern per non-blank comma part |
| `SearchOps.LineMatchesSound` | utils/search_ops.py:61-67 | each match names a matching line by its 1-based number, with that line right-stripped |
| `SearchOps.LineMatchesOrdered` | utils/search_ops.py:61-67 | matches come in increasing line order |
| `SearchOps.LineMatchesComplete` | utils/search_ops.py:61-67 | every matching line gives a match |
| `SearchOps.WalkMatchesFiltered` | utils/search_ops.py:47-57 | every match comes from a walked file that was opened and not filtered out |
| `SearchOps.Cap` | utils/search_ops.py:70-80 | the first 50 matches, all of them when fewer |
| `SearchOps.CapOfPrefix` | utils/search_ops.py:70-80 | stopping at 50 leaves the first 50 matches |
| `SearchOps.ScanFile` | utils/search_ops.py:59-74 | the inner loop appends this file's matches, or stops with 50 results that are a prefix of them |
| `SearchOps.Walk` | utils/search_ops.py:47-80 | the loops return the first 50 matches of the walk |
| `SearchOps.GrepSpec` | utils/search_ops.py:35-86 | succeeds exactly when the query compiles, gives no matches when it does not, and never more than 50 |
| `SearchOps.GrepSearch` | utils/search_ops.py:5-86 | an invalid query gives no results and failure; otherwise the filtered walk is searched |
| `RunCommand.Combine` | utils/run_command.py:40-46 | the stdout part, a blank line only between two parts, then the stderr part |
| `RunCommand.RunCommand` | utils/run_command.py:13-68 | success exactly for exit code 0; the message is never empty and is the matching one for failure, timeout and crash |
| `RunCommand.CombineBoth` | utils/run_command.py:40-46 | both streams appear in order |
| `RunCommand.Classify` | utils/run_command.py:90-108 | an answer approves exactly for `y`/`yes` and rejects exactly for `n`/`no`/empty |
| `RunCommand.GetUserApproval` | utils/run_command.py:70-115 | the loop returns the approval the answers decide and stops at the first decisive answer |
| `RunCommand.Approval` | utils/run_command.py:88-115 | approval needs an answer typed as yes |
| `RunCommand.ApprovalIff` | utils/run_command.py:88-115 | approved exactly when some answer says yes and none before it decided or interrupted |
| `DirItems.Sort` | utils/dir_ops.py:75 | the sort is a permutation that keeps the names |
| `DirItems.SortSorted` | utils/dir_ops.py:75 | the result is ordered by (kind, name) |
| `DirItems.SortGroups` | utils/dir_ops.py:75 | no directory follows a file, and names ascend within each group |
| `DirItems.LineShape` | utils/dir_ops.py:22-23 | a tree line is one terminated line at its prefix's level |
| `DirOps.ListDirRecursive` | utils/dir_ops.py:50-79 | the loop builds the sorted listing `Listing` describes |
| `DirOps.ListingEntries` | utils/dir_ops.py:50-79 | one item per entry, the same names, sorted |
| `DirOps.InfoFacts` | utils/dir_ops.py:57-70 | an item has the entry's name, joined path, kind and size, and children exactly for directories at depth 0 |
| `DirOps.ListingItem` | utils/dir_ops.py:53-72 | every listed item comes from one entry |
| `DirOps.Level` | utils/dir_ops.py:16-36 | one line per directory and per file at this level |
| `DirOps.LevelSplit` | utils/dir_ops.py:20-36 | the directory lines come first, then the file lines |
| `DirOps.Tree` | utils/dir_ops.py:7-38 | the drawing is empty exactly for no items, and otherwise ends a line |
| `DirOps.TreeShape` | utils/dir_ops.py:7-38 | the drawing ends a line, has one line per item and per listed child, every line has the prefix, and the lines at this level are `Level` |
| `DirOps.CapText` | utils/dir_ops.py:94-96 | a tree within the cap is kept whole |
| `DirOps.CapTextCut` | utils/dir_ops.py:95-96 | a longer tree is cut to a shorter prefix, at most the cap, without trailing whitespace, followed by the note |
| `DirOps.ListDir` | utils/dir_ops.py:40-101 | a missing path or a file fails with an empty text; a directory succeeds with its capped tree |
| `DirOpsOld.ListDirRecursive` | utils/dir_ops_old.py:37-66 | the loop builds the listing `Listing` describes |
| `DirOpsOld.InfoFacts` | utils/dir_ops_old.py:44-57 | an item has the entry's name, joined path, kind and size, and every directory has children |
| `DirOpsOld.ListingItem` | utils/dir_ops_old.py:40-59 | every listed item comes from one entry |
| `DirOpsOld.ListingEntries` | utils/dir_ops_old.py:37-66 | one item per entry, sorted |
| `DirOpsOld.ListingFullDepth` | utils/dir_ops_old.py:55-57 | every directory is listed to the bottom |
| `DirOpsOld.Level` | utils/dir_ops_old.py:9-12 | one line per item with its bare name, `└──` on the last |
| `DirOpsOld.Tree` | utils/dir_ops_old.py:4-17 | the drawing is empty exactly for no items, and otherwise ends a line |
| `DirOpsOld.TreeShape` | utils/dir_ops_old.py:4-17 | the drawing ends a line, has one line per item and per descendant, and the lines at this level are `Level` |
| `DirOpsOld.ListDir` | utils/dir_ops_old.py:19-83 | a missing path or a file gives no items and failure; a directory its listing and tree |
| `History.Get` | flow.py:246 | a key's value is the one stored under it, and an absent key is absent |
| `ContextText.Preview` | utils/context_manager.py:230 | a short text unchanged, a long one cut to its first `n` characters plus "..." |
| `ContextText.HeaderLines` | utils/context_manager.py:153-162 | tool, reason, then the parameter lines when there are parameters |
| `ContextText.StatusLine` | utils/context_manager.py:165-180 | "Success" exactly for a truthy success |
| `ContextText.GrepLines` | utils/context_manager.py:199-207 | the match count, then for a recent entry at most three matches and a remainder line |
| `ContextText.ReasoningLines` | utils/context_manager.py:233-235 | an edit-reasoning line appears only for a recent edit result with reasoning |
| `ContextText.FormatLines` | utils/context_manager.py:151-263 | the header, then the status line once the entry has a result |
| `ContextText.FormatText` | utils/context_manager.py:151-263 | every formatted action opens with its `- Tool:` line, a newline and its `- Reason:` line |
| `ContextText.Truncate` | utils/context_manager.py:320-347 | nothing for a non-positive limit, the content when it fits, else a text ending in the marker |
| `ContextText.SentencePrefix` | utils/context_manager.py:329-336 | the kept sentences are a prefix of the text within the limit |
| `ContextText.TruncateBySentence` | utils/context_manager.py:329-338 | a stripped prefix plus the marker, up to 14 characters past the limit |
| `ContextText.TruncateByChars` | utils/context_manager.py:341-347 | a prefix plus the marker, at most `limit - 5` characters; a shorter cut ends at a space past 80% |
| `ContextText.CharCutShape` | utils/context_manager.py:341-347 | the character cut is a prefix of at most `limit - 20` characters; a shorter one stops before a space past 80% of the limit |
| `ContextText.ImportantOf` | utils/context_manager.py:361-365 | the important sections, in order |
| `ContextText.KeepImportantShape` | utils/context_manager.py:372-383 | whole sections while they fit strictly, then at most one cut section |
| `ContextText.KeepOthersFit` | utils/context_manager.py:386-391 | the other sections kept fit under the cap |
| `ContextText.KeepOthersPrefix` | utils/context_manager.py:386-391 | the other sections kept are the next ones, in order |
| `ContextText.FitToLimit` | utils/context_manager.py:349-352 | a context within the cap is kept whole |
| `ContextText.FitToLimitBound` | utils/context_manager.py:349-393 | when no important section had to be cut, the result is under the cap |
| `ContextText.ScoredOfSound` | utils/context_manager.py:285-293 | each scored pair holds an older entry and its positive overlap with the query |
| `ContextText.ScoredComplete` | utils/context_manager.py:291-293 | every entry with a positive overlap is scored |
| `ContextText.RankedFacts` | utils/context_manager.py:285-296 | exactly the positively scored entries, by non-increasing overlap, ties in history order |
| `ContextText.CutTail` | utils/context_manager.py:308-313 | a summary over the budget is cut to fit when there is room |
| `ContextText.PickShape` | utils/context_manager.py:299-316 | whole summaries while they fit, at most five, then at most one cut one |
| `ContextText.RelevantOlderShape` | utils/context_manager.py:276-318 | at most 5 summaries; the whole ones belong to the best-ranked entries, in order, and fit the budget |
| `ContextText.RecentOf` | utils/context_manager.py:103 | the last five entries, all of them when fewer |
| `ContextText.OlderOf` | utils/context_manager.py:132 | the entries before the last five |
| `ContextText.RecentLoopShape` | utils/context_manager.py:105-118 | whole recent summaries while they fit, then at most one cut one |
| `ContextText.LabelAllAt` | utils/context_manager.py:110 | the `k`-th part is the `k`-th summary under `Recent Action k+1` |
| `ContextText.OlderPartsPrefix` | utils/context_manager.py:135-141 | the older summaries added are the leading relevant ones, each fitting what is left |
| `ContextText.RelevantShape` | utils/context_manager.py:299-316 | at most 5 summaries; the whole ones are the first summaries, in order, and fit the budget; a cut one comes last and ends with the marker |
| `ContextText.ContextualHistory` | utils/context_manager.py:80-149 | an empty history gives "No previous actions."; any other is `HistoryText` of the recent summaries and the ranked older ones |
| `ContextText.RecentStageShape` | utils/context_manager.py:103-118 | part k is `Recent Action k:` and the k-th recent summary, whole except possibly the last, which is then cut and ends with the marker |
| `ContextText.OlderStageShape` | utils/context_manager.py:128-141 | the older tier appends a prefix of the relevant older summaries for the budget left, and only with more than 5000 characters left and older actions present |
| `ContextText.HistoryTextShape` | utils/context_manager.py:95-149 | the text is the file summary when added, then the labelled recent parts, then the older ones, joined by blank lines, fitted only when over the limit, and then under it unless an important section had to be cut |
| `ContextText.ContextualHistoryShape` | utils/context_manager.py:80-149 | for a non-empty history: the file summary when added, `Recent Action k:` with the k-th of the last five actions (the last possibly cut), then a prefix of the relevant older summaries, joined by blank lines, fitted only when over `max_context_chars`, and then under it unless an important section had to be cut |
| `ContextText.TruncateSmallLimit` | utils/context_manager.py:340-347 | with less than 20 characters of room the character fallback keeps almost everything: forty letters cut to 5 come back as 40 characters |
| `ContextCache.Add` | utils/context_manager.py:28-78 | the descriptor has the path, fingerprint, size and line count; it is a reference to the holder exactly for a known fingerprint, else the content |
| `ContextCache.AddKnown` | utils/context_manager.py:38-51 | a known fingerprint changes only the path's access time |
| `ContextCache.AddNew` | utils/context_manager.py:54-69 | new content is stored and indexed, and the path's old fingerprint is evicted |
| `ContextCache.AddInv` | utils/context_manager.py:28-78 | adding keeps the cache consistent |
| `ContextCache.AddEntry` | utils/context_manager.py:35-78 | the step-by-step updates of both dictionaries and the order give the state and descriptor of `Add` |
| `ContextCache.AddAgain` | utils/context_manager.py:35-51 | content added once is afterwards a reference, under any path |
| `ContextCache.EmptyInv` | utils/context_manager.py:408-411 | the cleared cache is consistent |
| `ContextCache.HashCount` | utils/context_manager.py:401-402 | a consistent cache has as many fingerprints as files |
| `ContextCache.RatioIsOneOrZero` | utils/context_manager.py:405 | the deduplication ratio is 1.0 for a non-empty cache and 0.0 for an empty one |
| `ContextCache.AddNewSize` | utils/context_manager.py:398 | caching new content under a new path adds its size to the total |
| `ContextCache.FileSummaryShape` | utils/context_manager.py:265-274 | the summary is empty exactly for an empty cache, else starts with its header and counts as important |
| `ContextCache.SummaryList` | utils/context_manager.py:270-273 | the loop builds the header followed by one line per cached path, in cache order |
| `ContextCache.FormatAction` | utils/context_manager.py:151-263 | the loop gives `FormatText` |
| `ContextCache.SentenceLoop` | utils/context_manager.py:331-336 | the loop keeps the sentences `Fit` counts |
| `ContextCache.TruncateContent` | utils/context_manager.py:320-347 | the method gives `Truncate` |
| `ContextCache.CutSummary` | utils/context_manager.py:114-115 | a summary over the room left is truncated to it, and an empty cut counts as none |
| `ContextCache.Partition` | utils/context_manager.py:358-365 | the important and the other sections, in order |
| `ContextCache.KeepImportantLoop` | utils/context_manager.py:368-383 | the loop gives `KeepImportant` |
| `ContextCache.KeepOthersLoop` | utils/context_manager.py:386-391 | the loop gives `KeepOthers` |
| `ContextCache.ScoreActions` | utils/context_manager.py:285-293 | the loop gives `ScoredOf` |
| `ContextCache.PickLoop` | utils/context_manager.py:299-316 | the loop gives `Pick` |
| `ContextCache.RelevantOlderActions` | utils/context_manager.py:276-318 | the method gives `RelevantOlder` |
| `ContextCache.RecentTier` | utils/context_manager.py:105-118 | the loop gives the labelled `RecentLoop` run |
| `ContextCache.OlderTier` | utils/context_manager.py:135-141 | the loop gives `OlderParts` |
| `ContextCache.RecentProgress` | utils/context_manager.py:96-118 | the recent tier as `RecentStage` states it |
| `ContextCache.OlderProgress` | utils/context_manager.py:130-141 | the older tier as `OlderStage` states it |
| `ContextCache.ContextManager.constructor` | utils/context_manager.py:12-21 | an empty, consistent cache with the given limit |
| `ContextCache.ContextManager.AddFileContent` | utils/context_manager.py:28-78 | the new state and descriptor are those of `Add`, and consistency is kept |
| `ContextCache.ContextManager.ClearCache` | utils/context_manager.py:408-411 | the cache is empty and consistent |
| `ContextCache.ContextManager.GetCacheStats` | utils/context_manager.py:395-406 | the statistics are `StatsOf` the state |
| `ContextCache.ContextManager.FileStateSummary` | utils/context_manager.py:265-274 | the summary is `FileSummary` of the state |
| `ContextCache.ContextManager.TruncateContextToLimit` | utils/context_manager.py:349-393 | the result is `FitToLimit` with the instance's limit |
| `ContextCache.ContextManager.SummaryStep` | utils/context_manager.py:121-127 | the file summary goes first when files are cached, under 80% is used and it fits |
| `ContextCache.ContextManager.GetContextualHistory` | utils/context_manager.py:80-149 | the result is `ContextualHistory` of the history, the query, the limit and the cache's summary |
| `Flow.FirstOpener` | flow.py:204-205 | the first case-insensitive opener at or after `i` |
| `Flow.ExtractBlock` | flow.py:204-207 | with an opener followed by a fence, the stripped text from the first opener to the last fence |
| `Flow.ExtractFallback` | flow.py:209-214 | with no such block, the stripped reply when it is braced, else nothing |
| `Flow.ExtractJson` | flow.py:196-214 | the extracted text is no longer than the reply and has no surrounding whitespace |
| `Flow.ExtractWhole` | flow.py:199-207 | a reply fenced as a whole yields its stripped interior, whatever fences lie inside it |
| `Flow.ExtractTwoBlocks` | flow.py:199-207 | two fenced blocks come back as one text |
| `Flow.Validate` | flow.py:181-192 | accepted exactly with a tool, a reason and parameters, and `final_response` for `finish`; a missing tool or reason raises its message |
| `Flow.Decide` | flow.py:175-194 | no extracted text raises "No JSON object found in response"; an accepted decision is the validated decoding of the extracted text |
| `Flow.PlanJson` | flow.py:652-661 | the text after the first opener, up to the next opener and then the next fence, stripped; without an opener the text between the first two fences; else nothing |
| `Flow.RawError` | flow.py:675-681 | an operation passes exactly when its three keys are present and its range is valid |
| `Flow.FirstRawError` | flow.py:675-681 | no error exactly when every operation passes |
| `Flow.FirstRawErrorIsFirst` | flow.py:675-681 | the error raised is that of the first failing operation |
| `Flow.ValidatePlan` | flow.py:663-685 | missing reasoning, missing operations and a non-list each raise their message; an accepted plan's operations are complete and in range |
| `Flow.AcceptedPlanChecks` | flow.py:675-681 | an accepted plan passes `EditPlan.CheckOps` against the same `total`, the line count of the text it was planned on |
| `Flow.AcceptedPlanSplices` | flow.py:544-737 | for an existing target, a plan accepted against the line count of the text `read_file` returned, with non-overlapping operations, is carried out in full by the edit step: every `replace_file` succeeds, only the target changes, and it holds every edit spliced into the original numbering |
| `Flow.CheckedPlanSplices` | flow.py:675-737 | a plan accepted against the file's own newline count plus one, with non-overlapping operations, is carried out in full by the edit step |
| `Flow.Analyze` | flow.py:649-685 | no block raises "No JSON object found in response"; an accepted plan is the validated decoding of the block against `total` lines |
| `Flow.LastEntry` | flow.py:241-245 | the last history entry, or "No history found" |
| `Flow.WithResult` | flow.py:274-279 | only the last entry's result changes |
| `Flow.WithFileContent` | flow.py:553-555 | only the last entry's file content changes |
| `Flow.TargetPath` | flow.py:239-259 | the last entry's truthy `target_file` under the working directory, else the matching error |
| `Flow.GrepPrep` | flow.py:294-319 | the parameters when `query` is present, else the matching error |
| `Flow.PatternParam` | flow.py:316-317 | an absent key and JSON null both mean no pattern |
| `Flow.ListSpec` | flow.py:368-372 | success exactly when a directory lies at the path; otherwise no text |
| `Flow.ListPrep` | flow.py:349-366 | `relative_workspace_path`, "." by default, under the working directory |
| `Flow.CommandPrep` | flow.py:430-454 | the truthy `command` parameter, else the matching error |
| `Flow.ExecCommand` | flow.py:456-486 | a refusal runs nothing and keeps the stored modification; an approved command runs with the 30-second timeout; a changed command is stored |
| `Flow.Recorded` | flow.py:494-508 | the original command is reported exactly when a modification is stored; without one the prepared command is reported |
| `Flow.ServerTestRedundant` | flow.py:512-513 | the `"server"` test never decides |
| `Flow.AnalyzePrep` | flow.py:561-583 | the stored file content when it and both edit parameters are truthy, else the matching error |
| `Flow.ApplyPrep` | flow.py:698-728 | an empty plan gives an empty batch; otherwise the prepared batch when the target path is known |
| `Flow.Details` | flow.py:744-747 | one detail per pair, with the pair's fields under the swapped names |
| `Flow.EditAlwaysSuccessful` | flow.py:739-757 | the recorded success of every batch is true |
| `Flow.FailedEditRecordedAsSuccess` | flow.py:730-741 | a refused edit is still recorded as a success |
| `Flow.Shared.constructor` | main.py:96-103 | an empty store for a query, working directory and mode |
| `Flow.Shared.DecisionNode` | flow.py:46-233 | the prompt's history is `ContextualHistory`; an accepted decision is appended with no result and its tool is the action; a rejected one changes nothing |
| `Flow.Shared.ReadNode` | flow.py:238-288 | a successful non-empty read goes through the cache and is recorded as its descriptor; anything else is recorded as a message |
| `Flow.Shared.GrepNode` | flow.py:293-343 | the search's matches and flag become the last entry's result |
| `Flow.Shared.ListNode` | flow.py:348-383 | the listing's flag and tree become the last entry's result |
| `Flow.Shared.DeleteNode` | flow.py:388-424 | the file is deleted as `DeleteSpec` says and the pair is recorded under swapped names |
| `Flow.Shared.CommandExec` | flow.py:456-486 | the outcome and the stored modification are those of `ExecCommand` |
| `Flow.Shared.CommandNode` | flow.py:429-520 | the outcome is recorded with the command `Recorded` names; a successful server command sets the response and returns "done" |
| `Flow.Shared.CommandPost` | flow.py:488-520 | the command recorded is the stored modification's whenever there is one |
| `Flow.Shared.ReadTargetNode` | flow.py:525-555 | the read's text becomes the file content, whether or not the read succeeded |
| `Flow.Shared.AnalyzeNode` | flow.py:560-690 | an accepted plan's reasoning and operations are stored; a rejected one changes nothing |
| `Flow.Shared.ApplyNode` | flow.py:697-761 | the batch runs on the workspace, its summary becomes the result, and the plan is dropped |
| `Flow.Shared.ApplyPost` | flow.py:739-761 | the summary result, then the plan keys are removed |
| `Flow.Shared.FinishNode` | flow.py:768-805 | a truthy `final_response` becomes the response and the entry is marked complete |
| `Flow.Successors` | flow.py:826-856 | the decision node leads to exactly the seven tool names, `finish` leads nowhere, and every other node leads only back to the decision node |
| `Flow.Key` | flow.py:846-853 | an edge is always chosen by a non-empty name: the action itself, or "default" for none or an empty one |
| `Flow.Next` | flow.py:826-856 | nothing follows `finish`; the decision node goes on exactly for a known tool; no node leads to itself |
| `Flow.RunEnds` | flow.py:826-856 | a run ends exactly after `finish`, after a "done" command, or after an unknown tool; decisions and handlers alternate |
| `Flow.RunAlternates` | flow.py:846-853 | in a run the decision node is visited exactly at the even steps |
| `Flow.EditSequence` | flow.py:810-821 | the edit sub-flow visits its three nodes in order, then returns to the decision node |

## Left out

- The language model and `utils/call_llm.py`: each reply is a parameter `reply`, and the prompts are not modelled, including the conversation context.
- `json.loads`: decoding is a parameter `decode`. Non-object JSON and non-string parameter values beyond `Val` are not modelled; parameters are rendered with `History.Render`.
- The PocketFlow run loop, retries and exceptions: the graph is modelled as successor functions, and each node as one step; a raised error is the `Raise` result.
- `main.py`, `streamlit_app.py` and logging, which are interface code.
- Real file I/O, directories, symbolic links, permissions and encodings: the file system is `map<string, string>`, and a failing write or read is not modelled. `DirItems.Entry` is a finite tree, so a symbolic link to a directory, which `os.path.isdir` follows in `_list_dir_recursive` of `utils/dir_ops_old.py`, is not modelled; a link cycle there recurses until a `RecursionError` that the inner `except` swallows.
- Lines.SplitLines: every file is opened in text mode, whose universal newlines turn `\r\n` and a lone `\r` into `\n` on reading; the file map holds text after that translation, so lines are split at `\n` only and text holding `\r` is not modelled (the program reads `"a\r\nb"` as `["a\n", "b"]`).
- Lines.ConcatSplit: the round trip holds for the translated text only; the program writes a file it read with `\r\n` back with `\n`.
- Lines.LineCount: counts `\n` only; for untranslated text the program's `readlines()` also ends a line at a lone `\r`.
- `os.path.normpath` and `os.path.exists`/`isdir`: `list_dir` takes what lies at the path as a parameter `target`.
- The environment variable `LIST_DIR_MAX_CHARS`: it is the parameter `maxChars`.
- `os.walk` order, regular expressions and case folding: `grep_search` takes the walk, the query's compilation and `found` as parameters, and compiles glob patterns through `compiles`.
- Subprocesses and their timeout: `run_command` takes the process outcome as a parameter.
- `input()`: console answers are a sequence.
- `get_streamlit_approval`, which is not defined in `utils/run_command.py`: its answer is a parameter.
- SHA-256 in `_calculate_content_hash`: it is an abstract `fingerprint` function.
- `datetime.now()`: it is a parameter `now`.
- File sizes in KB: they are rendered by a parameter `kb`, because no float formatting is modelled.
- Floating-point arithmetic: `int(max * 0.9)` and the 80% tests are exact integer arithmetic.
- ContextText.HistoryTextShape: the text is shown under `max_context_chars` only when `_truncate_context_to_limit` cuts no important section; that function appends a cut section without counting its length (utils/context_manager.py:376-382), and a recent summary cut with less than 20 characters of room keeps nearly all of its text (`ContextText.TruncateSmallLimit`), so the program can return more than `max_context_chars`, contrary to the "stay within limits" of its docstring; that longer result is not exhibited as a lemma about a full history.
- ContextText.ContextualHistoryShape: the same conditional cap as `ContextText.HistoryTextShape`, for the same reason.
- `ContextCache.ContextManager.GetContextualHistory`: it formats every summary before each budget loop rather than inside it; that is the same text, since formatting has no side effects.
- Unicode: `lower()` lowers ASCII letters only, and `strip()`, `split()` and the other whitespace tests know Python's whitespace below code point 128 (space, `\t` to `\r`, and the separators `\x1c` to `\x1f`); whitespace above it, such as U+00A0 or U+2028, is not modelled.
- The shared context manager of `flow.py` uses `ContextCache.DefaultMaxContextChars` (400000); the nodes take the instance as a parameter.
