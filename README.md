# oh-my-claude-board: verified model of the dashboard's core

oh-my-claude-board is a terminal dashboard for Claude agent sessions. It reads the
hook events an agent run appends to a JSON-lines log and classifies the errors
those events report. It shows the project's phases and tasks as a scrollable
task list, and `init` installs the event-logger hook into the user's
`settings.json`. This Dafny project models five pieces of that program and
proves what each piece promises.

- **Rules** (`rules.dfy`, from `src/analysis/rules.rs`) is the error classifier.
  - Its 12-rule table is kept in its original order.
  - `AnalyzeError` lower-cases the message and returns the category, retryable
    flag and suggestion of the first rule that has a pattern occurring as a
    substring.
  - When no rule matches it returns the `Unknown` fallback.
  - Proved: first-match semantics, independence from letter case, the
    "permission denied" priority, and retryable exactly for `Network`.
  - Proved in `rule_examples.dfy`: the message of every classification unit test
    gets the category, retryable flag and suggestion that test expects.
  - Proved: the table's "unresolved" pattern can never decide a result, because
    every message containing it also contains "resolve", which an earlier
    Network rule catches.
- **HookParser** (`hook_parser.dfy`, from `src/data/hook_parser.rs`) is the
  JSON-lines reader.
  - `ParseHookEvents` is the loop of `parse_hook_events`: it splits lines as
    Rust's `str::lines` does, trims them and skips blank ones.
  - The loop is proved equal to a recursive specification, `ParseLines`.
  - Proved about `ParseLines`: counting, order, numbering, soundness and
    completeness of the errors.
  - `EventsForAgent` and `EventsForSession` are order-preserving filters.
- **Gantt** (`gantt.dfy`, from `src/ui/gantt.rs`) is the task-list widget.
  - Phases and tasks flatten into rows: a phase header, then its tasks.
  - Proved about that flattening: `BuildLines` computes the rows, and every row
    index names exactly one header or one task.
  - `GanttState` is a class holding the cursor fields `selected`, `totalItems`
    and `offset`. `SelectNext` and `SelectPrev` update the selection as the Rust
    methods do, and `SelectedTask` reads it.
  - `Render` models `GanttWidget`'s `StatefulWidget::render`, which takes the
    state as `&mut GanttState`: it sets `totalItems` and the scroll offset.
  - Proved: render's scroll adjustment keeps the selection on screen and moves
    the window as little as possible.
  - Status colours and icons are proved one-to-one.
- **Init** (`init.dfy`, from `src/init.rs`) is the in-memory part of
  `patch_settings`, over a small JSON datatype.
  - It makes sure `hooks.PreToolUse` and `hooks.PostToolUse` hold arrays and
    appends the event-logger entry wherever none is recognised.
  - It fails with the source's messages when the root, `hooks` or one of the two
    keys has the wrong shape.
  - Proved: the patch preserves every other setting and hook list, asks for a
    write exactly when something was added, and is idempotent.
- **Layout** (`layout.dfy`, from `src/ui/layout.rs`): `Toggle` is the three-pane
  focus cycle, proved a bijection of order three.

`text.dfy` models the `str` operations the core relies on: `contains`, ASCII
`to_lowercase`, `trim` with Rust's whitespace set, and `lines`. `wrappers.dfy`
holds `Option` and `Result`.

## Model

| member | source | states |
|---|---|---|
| Rules.CategoryName | src/analysis/rules.rs:16-26 | The `Display` text of each category is the category's own name. |
| Rules.CategoryNameInjective | src/analysis/rules.rs:16-26 | The display names are exactly "Type", "Runtime", "Network", "Permission" and "Unknown", and distinct categories have distinct names. |
| Rules.RuleTable | src/analysis/rules.rs:44-121 | The twelve rules in the source's order, each with its patterns, category, retryable flag and suggestion. |
| Rules.AnyPatternIn | src/analysis/rules.rs:130-131 | A rule's pattern list matches exactly when some pattern occurs in the lower-cased message. |
| Rules.FirstMatch | src/analysis/rules.rs:129-138 | The scan returns the index of a matching rule with no matching rule before it, and returns none exactly when no rule matches. |
| Rules.TableRetryableIffNetwork | src/analysis/rules.rs:44-121 | Every rule in the table is retryable exactly when its category is Network. |
| Rules.TableHasNoUnknown | src/analysis/rules.rs:44-121 | No rule in the table has category Unknown, so Unknown comes only from the fallback. |
| Rules.AnalyzeError | src/analysis/rules.rs:127-145 | Every result is retryable exactly when its category is Network, and an Unknown result is the fallback. |
| Rules.DecidedBy | src/analysis/rules.rs:127-138 | When rule k is the first rule matching the lower-cased message, the result is rule k's category, retryable flag and suggestion. |
| Rules.NoMatchBefore | src/analysis/rules.rs:44-138 | No rule before the k-th matches when none of the patterns of those rules occurs, the patterns listed in table order. |
| Rules.NoMatchFallsBack | src/analysis/rules.rs:140-144 | When no rule matches, the result is Unknown, not retryable, "Investigate error details". |
| Rules.AnalyzeErrorIgnoresCase | src/analysis/rules.rs:128 | Classifying the lower-cased message gives the same result as classifying the message itself. |
| Rules.PermissionDeniedWins | src/analysis/rules.rs:46-51 | Any message whose lower-cased form contains "permission denied" is classified Permission, not retryable, "Check file permissions", whatever else it contains. |
| Rules.FirstMatchAtMost | src/analysis/rules.rs:129-138 | When rule k matches, the scan stops at rule k or earlier. |
| Rules.UnresolvedContainsResolve | src/analysis/rules.rs:78-97 | Every string containing "unresolved" contains "resolve". |
| Rules.EarlyRulesCategories | src/analysis/rules.rs:44-82 | The first six rules are Permission or Network rules, and the sixth is the dns/resolve Network rule. |
| Rules.UnresolvedPatternIsDead | src/analysis/rules.rs:78-138 | A message containing "unresolved" is always decided by one of the first six rules, so the "unresolved" pattern of the later rule never decides a result. |
| Rules.NinthRuleNeedsUndefined | src/analysis/rules.rs:96-101 | When the ninth rule decides a message, the message contains "undefined". |
| RuleExamples.PermissionDeniedExample | src/analysis/rules.rs:152-157 | The test message "permission denied: /etc/shadow" gives Permission, not retryable, "Check file permissions". |
| RuleExamples.AccessDeniedDecided | src/analysis/rules.rs:44-57 | Any message whose lower-cased form lacks the character 'm' but contains "access denied" is decided by rule 2 of the table, counting from 1: Permission, not retryable, "Check access rights". |
| RuleExamples.AccessDeniedExample | src/analysis/rules.rs:160-164 | The test message "Access Denied for resource X" gives Permission, not retryable, "Check access rights". |
| RuleExamples.ConnectionRefusedDecided | src/analysis/rules.rs:44-64 | Any message whose lower-cased form lacks the character 'm' and the adjacent pair "ac" but contains "connection refused" is decided by rule 3 of the table, counting from 1: Network, retryable, "Check if service is running". |
| RuleExamples.ConnectionRefusedExample | src/analysis/rules.rs:167-172 | The test message "connection refused: localhost:5432" gives Network, retryable, "Check if service is running". |
| RuleExamples.TimeoutDecided | src/analysis/rules.rs:44-70 | Any message whose lower-cased form lacks the character 'n' but contains "timed out" is decided by rule 4 of the table, counting from 1: Network, retryable, "Retry or increase timeout". |
| RuleExamples.TimeoutExample | src/analysis/rules.rs:175-179 | The test message "request timed out after 30s" gives Network, retryable, "Retry or increase timeout". |
| RuleExamples.TimeoutVariantDecided | src/analysis/rules.rs:44-70 | Any message whose lower-cased form lacks the character 'd' but contains "timeout" is decided by rule 4 of the table, counting from 1: Network, retryable, "Retry or increase timeout". |
| RuleExamples.TimeoutVariantExample | src/analysis/rules.rs:182-186 | The test message "connection timeout" gives Network, retryable, "Retry or increase timeout". |
| RuleExamples.RateLimitDecided | src/analysis/rules.rs:44-76 | Any message whose lower-cased form lacks the characters 'o' and 'n' but contains "rate limit" is decided by rule 5 of the table, counting from 1: Network, retryable, "Wait and retry". |
| RuleExamples.RateLimitExample | src/analysis/rules.rs:189-194 | The test message "rate limit exceeded: 429" gives Network, retryable, "Wait and retry". |
| RuleExamples.DnsResolutionDecided | src/analysis/rules.rs:44-82 | Any message whose lower-cased form lacks the character 't' and the adjacent pair "de" but contains "dns" is decided by rule 6 of the table, counting from 1: Network, retryable, "Check network connection". |
| RuleExamples.DnsResolutionExample | src/analysis/rules.rs:197-201 | The test message "DNS lookup failed for api.example.com" gives Network, retryable, "Check network connection". |
| RuleExamples.TypeErrorDecided | src/analysis/rules.rs:44-89 | Any message whose lower-cased form lacks the characters 'm', 'n' and 'l' but contains "type error" is decided by rule 7 of the table, counting from 1: Type, not retryable, "Fix type annotations". |
| RuleExamples.TypeErrorExample | src/analysis/rules.rs:204-208 | The test message "type error: expected i32 got &str" gives Type, not retryable, "Fix type annotations". |
| RuleExamples.NotFoundDecided | src/analysis/rules.rs:44-95 | Any message whose lower-cased form lacks the characters 'i', 'r' and 's' but contains "not found" is decided by rule 8 of the table, counting from 1: Type, not retryable, "Check imports and paths". |
| RuleExamples.NotFoundExample | src/analysis/rules.rs:211-216 | The test message "module 'foo' not found" gives Type, not retryable, "Check imports and paths". |
| RuleExamples.UndefinedVariableDecided | src/analysis/rules.rs:44-101 | Any message whose lower-cased form lacks the characters 's', 'm' and 'p', and the adjacent pair "no" but contains "undefined" is decided by rule 9 of the table, counting from 1: Type, not retryable, "Check variable/module names". |
| RuleExamples.UndefinedVariableExample | src/analysis/rules.rs:219-223 | The test message "undefined reference to 'bar'" gives Type, not retryable, "Check variable/module names". |
| RuleExamples.OutOfMemoryDecided | src/analysis/rules.rs:44-108 | Any message whose lower-cased form lacks the characters 'd', 'p' and 's', and the adjacent pair "im" but contains "out of memory" is decided by rule 10 of the table, counting from 1: Runtime, not retryable, "Reduce memory usage". |
| RuleExamples.OutOfMemoryExample | src/analysis/rules.rs:226-230 | The test message "fatal: out of memory allocating 1GB" gives Runtime, not retryable, "Reduce memory usage". |
| RuleExamples.StackOverflowDecided | src/analysis/rules.rs:44-114 | Any message whose lower-cased form lacks the characters 'u' and 'p', and the adjacent pairs "es", "an", "at", "dn" and "om" but contains "stack overflow" is decided by rule 11 of the table, counting from 1: Runtime, not retryable, "Check for infinite recursion". |
| RuleExamples.StackOverflowExample | src/analysis/rules.rs:233-237 | The test message "thread 'main' has overflowed its stack overflow" gives Runtime, not retryable, "Check for infinite recursion". |
| RuleExamples.PanicUnwrapDecided | src/analysis/rules.rs:44-120 | Any message whose lower-cased form lacks the characters 's', 'f' and 'y', and the adjacent pairs "im" and "om" but contains "panic" is decided by rule 12 of the table, counting from 1: Runtime, not retryable, "Add proper error handling". |
| RuleExamples.PanicUnwrapExample | src/analysis/rules.rs:240-244 | The test message "thread 'main' panicked at 'called unwrap on None'" gives Runtime, not retryable, "Add proper error handling". |
| RuleExamples.UnknownFallbackDecided | src/analysis/rules.rs:44-144 | Any message whose lower-cased form lacks the characters 'r' and 'f', and the adjacent pairs "im", "ni", "at", "dn" and "oo" matches no rule and gets the Unknown fallback: Unknown, not retryable, "Investigate error details". |
| RuleExamples.UnknownFallbackExample | src/analysis/rules.rs:247-252 | The test message "something completely unexpected happened" gives the Unknown fallback: Unknown, not retryable, "Investigate error details". |
| RuleExamples.ResolveMatchesNetworkDecided | src/analysis/rules.rs:44-82 | Any message whose lower-cased form lacks the character 'i' but contains "resolve" is decided by rule 6 of the table, counting from 1: Network, retryable, "Check network connection". |
| RuleExamples.ResolveMatchesNetworkExample | src/analysis/rules.rs:277-281 | The test message "could not resolve host" gives Network, retryable, "Check network connection". |
| RuleExamples.PriorityOrderExample | src/analysis/rules.rs:270-274 | "permission denied: file not found" also matches the "not found" rule, yet is classified Permission, not retryable, "Check file permissions". |
| RuleExamples.CaseInsensitiveExample | src/analysis/rules.rs:255-258 | "PERMISSION DENIED" is classified exactly like "permission denied": Permission, not retryable, "Check file permissions". |
| Text.Lower | src/analysis/rules.rs:128 | Lower-casing keeps the length and maps each character on its own, changing only ASCII capitals. |
| Text.LowerIdempotent | src/analysis/rules.rs:128 | Lower-casing twice is the same as lower-casing once. |
| Text.TrimSpec | src/data/hook_parser.rs:57 | The trimmed line occurs in the line with only whitespace around it, does not start or end with whitespace, and is empty exactly for a blank line. |
| Text.TrimIdempotent | src/data/hook_parser.rs:57 | Trimming twice is the same as trimming once. |
| Text.Lines | src/data/hook_parser.rs:56 | No line holds a line feed, and the input has no lines exactly when it is empty. |
| Text.JoinLinesOfLines | src/data/hook_parser.rs:56 | Joining the lines with line feeds gives back the input without the carriage return of each "\r\n" and without a final line feed. |
| Text.LinesCount | src/data/hook_parser.rs:56 | There is one line per line feed, plus one for a last line without a line ending. |
| HookParser.ParseFrom | src/data/hook_parser.rs:56-70 | The specification of the loop over trimmed lines numbered from a given count on: a blank line adds nothing, a decodable line adds its event, a rejected line adds one error with its number, its text and the decoder's message. |
| HookParser.ParseLines | src/data/hook_parser.rs:52-73 | The specification of `parse_hook_events`: ParseFrom over the trimmed lines, numbered from 1. |
| HookParser.ParseHookEvents | src/data/hook_parser.rs:52-73 | The loop over the input's lines gives exactly ParseLines of those lines. |
| HookParser.ParseEachLine | src/data/hook_parser.rs:56-70 | The loop pushing into the events and errors lists computes ParseLines. |
| HookParser.ParseSingleLine | src/data/hook_parser.rs:57-68 | A blank line gives nothing, a decodable line gives its event, and an undecodable line gives one error numbered 1 with the trimmed text and the decoder's message. |
| HookParser.ParseAppend | src/data/hook_parser.rs:56-70 | The events of two concatenated inputs are the two inputs' events in order, and the errors are the two inputs' errors with the second's line numbers shifted by the first's line count. |
| HookParser.ParseCount | src/data/hook_parser.rs:56-70 | The number of events plus the number of errors equals the number of lines whose trimmed form is non-empty. |
| HookParser.ParseBlank | src/data/hook_parser.rs:57-60 | Input whose lines are all blank gives no events and no errors, and so does empty input. |
| HookParser.EventsAreSuccesses | src/data/hook_parser.rs:62-63 | The events are exactly the successful decodes of the non-blank lines, in line order. |
| HookParser.ErrorsSound | src/data/hook_parser.rs:62-68 | Every error names a line in range, carries that line's trimmed non-empty text, and carries the message the decoder gave for it. |
| HookParser.ErrorsIncreasing | src/data/hook_parser.rs:56-66 | Error line numbers strictly increase along the error list. |
| HookParser.ErrorsComplete | src/data/hook_parser.rs:62-68 | Every non-blank line that the decoder rejects has an error carrying its 1-based line number. |
| HookParser.BlankLinesAreNumbered | src/data/hook_parser.rs:56-66 | Blank lines before a rejected line still count, so that line's error carries its position among all lines. |
| HookParser.FilterMembers | src/data/hook_parser.rs:82-97 | The filter keeps exactly the events satisfying its test; it gives empty when none does and the whole input when all do. |
| HookParser.FilterAppend | src/data/hook_parser.rs:82-97 | Filtering distributes over concatenation, so the original order is kept. |
| HookParser.EventsForAgent | src/data/hook_parser.rs:82-88 | The result holds exactly the events whose agent id is the argument; it is empty when no event has that id and the whole input when every event does. |
| HookParser.EventsForSession | src/data/hook_parser.rs:91-97 | The same filter on the session id. |
| HookParser.EventsForAgentAppend | src/data/hook_parser.rs:82-88 | The agent filter keeps the events' original order across concatenation. |
| HookParser.EventsForSessionAppend | src/data/hook_parser.rs:91-97 | The session filter keeps the events' original order across concatenation. |
| Gantt.StatusColor | src/ui/gantt.rs:60-68 | Completed is green, InProgress yellow, Pending dark grey, Failed red and Blocked magenta. |
| Gantt.StatusColorInjective | src/ui/gantt.rs:60-68 | Every status has a colour, and distinct statuses have distinct colours. |
| Gantt.StatusIcon | src/ui/gantt.rs:71-79 | Completed shows "[x]", InProgress "[/]", Pending "[ ]", Failed "[!]" and Blocked "[B]". |
| Gantt.StatusIconShape | src/ui/gantt.rs:71-79 | Every icon is three characters in square brackets, and distinct statuses have distinct icons. |
| Gantt.ItemCountIsPhasesPlusTasks | src/ui/gantt.rs:92-145 | The task list has one row per phase plus one per task. |
| Gantt.PhaseStartMonotone | src/ui/gantt.rs:92-145 | A later phase's header comes after every row of each earlier phase. |
| Gantt.HeaderIsNoTask | src/ui/gantt.rs:41-56 | No header position is also a task position. |
| Gantt.PositionsInjective | src/ui/gantt.rs:41-56 | Distinct headers sit at distinct rows, and distinct tasks at distinct rows. |
| Gantt.PositionsCover | src/ui/gantt.rs:41-56 | Every row index inside the list is either a phase header or a task. |
| Gantt.AgentLabel | src/ui/gantt.rs:120-124 | An assigned task shows " @" followed by its agent, and an unassigned one shows nothing. |
| Gantt.Rows | src/ui/gantt.rs:92-145 | The specification of `build_lines`: the rows of every phase in order, a header and then its tasks, each marked by whether its index is the selection. |
| Gantt.RowsLength | src/ui/gantt.rs:92-166 | The rows number exactly the item count. |
| Gantt.RowsHeader | src/ui/gantt.rs:96-114 | The row at a phase's start is that phase's header, carrying its index, id and name. |
| Gantt.RowsTask | src/ui/gantt.rs:116-141 | The row at a task's position is that task's line, carrying its icon, colour, id, name and agent label. |
| Gantt.RowsSelected | src/ui/gantt.rs:94-141 | Exactly the row whose index is the selection is marked selected. |
| Gantt.RowKind | src/ui/gantt.rs:92-145 | Every row is a header or a task line, and it is the one its position names. |
| Gantt.BuildLines | src/ui/gantt.rs:92-145 | The nested loop with its running index gives exactly the rows. |
| Gantt.NextIndex | src/ui/gantt.rs:29-33 | The cursor moves one down and stops at the last item, and it stays put in an empty list. |
| Gantt.PrevIndex | src/ui/gantt.rs:35-37 | The cursor moves one up and stops at zero. |
| Gantt.NextPrevInverse | src/ui/gantt.rs:29-37 | Away from the ends, a step down and a step up undo each other. |
| Gantt.CursorBounds | src/ui/gantt.rs:29-37 | Stepping down from the last item and stepping up from the first leave the cursor in place. |
| Gantt.AdjustOffset | src/ui/gantt.rs:168-174 | After the adjustment the selection lies in the visible window; an already visible selection leaves the offset unchanged; with zero height the offset follows the source's arithmetic. |
| Gantt.AdjustOffsetMinimal | src/ui/gantt.rs:168-174 | The new offset is never further from the old one than any other offset that shows the selection. |
| Gantt.AdjustOffsetIdempotent | src/ui/gantt.rs:168-174 | Adjusting an adjusted offset again changes nothing. |
| Gantt.Window | src/ui/gantt.rs:176-181 | With the offset at or past the end nothing is drawn; otherwise exactly min(visible height, rows from the offset on) rows are drawn, and the i-th drawn row is row offset + i. |
| Gantt.VisibleRows | src/ui/gantt.rs:176-198 | The skip/take loop gives exactly the window. |
| Gantt.GanttState.constructor | src/ui/gantt.rs:19-26 | The default state has all three fields zero. |
| Gantt.GanttState.Init | src/ui/gantt.rs:19-26 | A state built from three values holds those values. |
| Gantt.GanttState.SelectNext | src/ui/gantt.rs:29-33 | The selection becomes NextIndex of the old selection, and the other fields stay the same. |
| Gantt.GanttState.SelectPrev | src/ui/gantt.rs:35-37 | The selection becomes PrevIndex of the old selection, and the other fields stay the same. |
| Gantt.GanttState.SelectedTask | src/ui/gantt.rs:41-56 | A returned pair names the task at the selected row, and none is returned exactly when no task sits there (a header, or past the end). |
| Gantt.GanttState.Render | src/ui/gantt.rs:151-199 | totalItems becomes the row count, offset becomes the adjusted offset, the selection is unchanged, and the drawn rows are the window of the rows at the new offset. |
| Gantt.SampleLayout | src/ui/gantt.rs:236-275 | Three phases holding 2 and, together, 6 tasks give 11 rows and 8 tasks; the second phase starts at row 3 and its first task is row 4. |
| Gantt.NavigationScenario | src/ui/gantt.rs:210-234 | Over five items: next from 0 gives 1, prev gives 0, prev again stays 0, and next from 4 stays at 4. |
| Gantt.SelectedTaskScenario | src/ui/gantt.rs:236-275 | On that layout, row 0 is no task, row 1 is task (0, 0), row 3 is no task and row 4 is task (1, 0). |
| Init.BuildHookEntry | src/init.rs:94-103 | The entry holds exactly a matcher and a hooks array with the single logger hook. |
| Init.IsLoggerHook | src/init.rs:111-114 | A hook is the logger when it has a "command" string containing "event-logger.js". |
| Init.AnyLoggerHook | src/init.rs:111-117 | A hooks list is recognised exactly when some hook's command contains "event-logger.js". |
| Init.IsLoggerEntry | src/init.rs:108-116 | An entry is a logger entry when its "hooks" field is an array holding a logger hook; a missing or non-array field means no. |
| Init.HasEventLoggerEntry | src/init.rs:106-120 | An array is recognised exactly when some entry holds such a hook. |
| Init.HasEventLoggerEntryAppend | src/init.rs:106-120 | Appending an entry gives a recognised array exactly when the array or the entry was recognised. |
| Init.BuiltEntryIsRecognised | src/init.rs:186-203 | The built entry is recognised, alone or in an array. |
| Init.EmptyHasNoEntry | src/init.rs:206-208 | An empty array holds no logger entry. |
| Init.OtherHookIsNotRecognised | src/init.rs:211-217 | An entry whose hook runs another command is not recognised. |
| Init.Patch | src/init.rs:134-176 | The specification of the in-memory patch: fail on a root or "hooks" that is no object, then patch the two keys in turn and write the result into "hooks". |
| Init.PatchKey | src/init.rs:151-165 | One turn: a missing key starts as an empty array, a non-array fails with that key's message, and the entry is appended, setting the flag, unless a logger entry is already there. |
| Init.PatchSettings | src/init.rs:134-176 | The loop over the two keys, which edits the settings in place and sets the patched flag, gives exactly Patch of the settings. |
| Init.PatchHookArrays | src/init.rs:150-166 | The loop over PreToolUse and PostToolUse gives exactly the key-by-key patch, stopping at the first error. |
| Init.PatchKeysStopsAtError | src/init.rs:150-158 | Once a key fails, the later keys change nothing. |
| Init.PatchKeyFails | src/init.rs:151-158 | One key fails exactly when it is present but not an array, and then with that key's message. |
| Init.PatchKeyEffect | src/init.rs:151-164 | After one key, every other hook list is unchanged, the key holds an array, the old entries come first, the entry is appended only when none was recognised, and one is recognised afterwards. |
| Init.PatchKeyIdempotent | src/init.rs:159-161 | A key whose array already holds a logger entry is left as it is. |
| Init.PatchKeysPair | src/init.rs:150 | The loop over two keys is the first key's turn followed by the second's. |
| Init.PatchTwoFails | src/init.rs:150-158 | Two keys fail exactly when either is badly shaped, with the first bad key's message. |
| Init.PatchTwoKeys | src/init.rs:150-166 | After both keys, every other hook list is unchanged and both hold arrays. |
| Init.PatchTwoRecognised | src/init.rs:150-166 | After both keys, each array holds its old entries followed by the entry where none was recognised, and is recognised. |
| Init.PatchTwoChanged | src/init.rs:148-164 | The patched flag is set exactly when one of the two arrays held no logger entry. |
| Init.PatchTwoIdempotent | src/init.rs:159-161 | When both arrays already hold a logger entry, the two turns change nothing. |
| Init.KeysDistinct | src/init.rs:150 | The two hook keys are distinct. |
| Init.PatchFailsIffMalformed | src/init.rs:134-158 | The patch fails exactly when the root is no object, "hooks" is no object, or "PreToolUse" or "PostToolUse" holds something other than an array, and the error is RootNotObject, HooksNotObject or NotAnArray of the first bad key, in the order the code checks them. |
| Init.PatchIsTurns | src/init.rs:134-176 | A successful patch writes the result of the key-by-key turns into "hooks". |
| Init.PatchKeepsSettings | src/init.rs:134-176 | A successful patch keeps every other top-level setting and adds "hooks" as an object. |
| Init.PatchKeepsHooks | src/init.rs:138-166 | A successful patch keeps every other hook list, and both arrays keep their old entries and are recognised. |
| Init.PatchChangedIff | src/init.rs:148-168 | A write is asked for exactly when one of the two arrays held no logger entry. |
| Init.PatchIdempotent | src/init.rs:150-168 | Patching the result of a successful patch again returns the same settings with the write flag false. |
| Init.PatchFromEmpty | src/init.rs:220-235 | Empty settings gain "hooks" with two arrays, each holding only the new entry, and are written. |
| Init.PatchKeepsExisting | src/init.rs:238-270 | An unrelated PreToolUse entry stays first and the logger entry follows it. |
| Layout.PaneIndex | src/ui/layout.rs:10-14 | Each pane has a position below three in the cycle. |
| Layout.Toggle | src/ui/layout.rs:17-23 | Toggling moves one step around the cycle of three and always changes the pane. |
| Layout.ToggleTimesRotates | src/ui/layout.rs:17-23 | n toggles move n steps around the cycle, modulo three. |
| Layout.ToggleCycle | src/ui/layout.rs:17-23 | Three toggles return to the start, and one or two never do. |
| Layout.ToggleBijective | src/ui/layout.rs:17-23 | Every pane has exactly one predecessor, so toggling is one-to-one. |
| Layout.ToggleSteps | src/ui/layout.rs:77-82 | TaskList goes to Detail, Detail to Agents, and Agents to TaskList. |

## Left out

- The JSON and timestamp decoding of one line (serde_json and chrono, `src/data/hook_parser.rs:62`) is the `decode` parameter of the parser. Timestamps are an opaque wrapper around a string.
- The fixture-specific claim that timestamps are in order (`src/data/hook_parser.rs:204-210`) depends on a fixture file that is not part of this model, and the code does not promise it.
- `parse_hook_file` (`src/data/hook_parser.rs:76-79`) only reads a file and calls the parser.
- Lower-casing covers ASCII capitals only. Unicode case mapping is not modelled, and neither are multi-character lower-case forms.
- Trimming uses Rust's White_Space set over Dafny characters. Graphemes and encodings are not modelled.
- Phase progress and its `as u8` cast (`src/ui/gantt.rs:98-99`) are floating point. The header's " (pct%)" percentage text (`src/ui/gantt.rs:111`) is therefore left out, and a header entry carries the phase's index, id and name only.
- All ratatui drawing is left out: styles, the border and its focus colour, the selected-row highlight, and the rectangle arithmetic. `Render` returns the entries it would draw. The loop's second height check (`src/ui/gantt.rs:182-184`) is redundant after `take` and is not modelled.
- Phases and tasks are minimal. A phase has an id, a name and its tasks. A task has an id, a name, a status and an optional agent. They come from `src/data/state.rs` and `src/data/tasks_parser.rs`, which are not part of this model, so neither is their parsing and aggregation.
- `DashboardLayout::compute` (`src/ui/layout.rs:47-70`) is ratatui layout solving.
- `src/ui/statusbar.rs` and `src/ui/claude_output.rs` are presentation over floats and ratatui widgets.
- The filesystem and environment work in `src/init.rs` is left out: `run_init`, `home_dir`, directory creation, deploying the hook script, reading and writing settings.json, pretty-printing and permissions. `Init.PatchOutcome`'s `changed` flag says whether the file would be written.
- The console messages of `patch_settings` (`src/init.rs:160`, `:163`, `:173` and `:175`) are output only and are not modelled.
- JSON numbers are integers (the only number the patch writes is the timeout 3). Object key order is not modelled: objects are maps, and serializing them is out of scope.
- `src/main.rs` (command-line parsing) and `src/app.rs` (a running flag) hold no logic worth modelling.
- PatchIdempotent: compares JSON values, not file text. The source's test (`src/init.rs:273-284`) compares the file text of two runs; that follows because the second run writes nothing, but reading, writing and pretty-printing the file are not modelled.
