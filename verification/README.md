# Verified models of Codex Taskboard

Codex Taskboard shows a task board inside the Codex desktop app: a Tauri launcher keeps one server process alive, and a web
client shows boards, dependency graphs, progress and an AI chat whose composer refers to skills and agents. This project
models the parts of it where correctness is not visible from one function body, and proves what those parts are for.

| files | what they model |
|---|---|
| `Launcher`, `LauncherInvariant`, `LauncherSafety`, `LauncherExample` | the launcher lifecycle as a state machine over all interleavings of starts, restarts, quits, exit watchers, recoveries, updates and output threads: each mutex-protected block or atomic operation is one step, and stopping a process is effective when the call returns |
| `TaskDependencyGraph` | the projection of leaf dependencies onto cards, grouping by mutual reachability and layering by relaxation |
| `GoalWindowMap` | the checks on a window-map declaration, Kahn's algorithm and the levelling of the displayed nodes |
| `TaskProgress` | the progress traversal over shared and circular containment, and the roadmap preorder |
| `Composer` | the composer document: normalizing, splitting, replacing |
| `JsText`, `Base64Url`, `ReferenceKey` | UTF-16 strings, strict UTF-8, base64url (sections 5 and 3.5 of RFC 4648) and the stable reference keys built from them |
| `ComposerFragments`, `ReferenceMarkdown` | references printed as Markdown links and found again by the paste pattern |
| `RefreshQueue` | the queue that coalesces snapshot refreshes |
| `StorageQueue` | the retrying chain of client-storage writes and the server it writes to |
| `BoardMoves` | midpoint sort orders and the moves of a board |
| `SkillDigest` | the byte stream hashed for a skill directory |
| `Graphs`, `Layers`, `Sorting`, `Common` | paths, cycles and longest chains; grouping by level; the stable library sort; options and facts about collections |

Loops, in-place updates and objects of the program are methods, arrays and classes here, each proved against a specification;
the theorems are lemmas about those specifications. Cards, tasks and projects are identified by opaque ids. Timestamps are
integers, sort orders are reals, Unicode normalization (NFC) and the locale-dependent comparisons are function parameters.
No proof uses Dafny's automatic induction: lemmas it would apply to carry `{:induction false}`, because over datatypes with
subset types the hypotheses it adds can contradict each other.

The launcher's steps follow the source block by block: `Launcher.AdvanceStop` is `stop_managed_child_locked`
(src-tauri/src/main.rs:1079-1102), `AdvanceStart` is `start_launcher_locked` up to the spawn of its watcher (1186-1388),
`Enter`, `AfterReturn` and `Release` are the callers that hold the lifecycle lock (1448-1459, 1481-1509, 1789-1804, 2166-2177,
2263-2277), `DoClaim` and `DoNoteExit` are the exit watcher (1389-1446), `DoOutput` and `DoSignal` are the output threads and
the open requests (923-936, 1109-1184, 1525-1528), and `NextUpdate` and `UpdateSnapshot` are an update from the offer to its end (1681-1940).

## Where the program does not do what its parts suggest

- A signal that an output thread still has to send is sent to whoever the snapshot names by then. If that signal fails, an
  output thread of an older generation removes the open-signal pid of the newer child
  (src-tauri/src/main.rs:1146-1149, 923-935). `LauncherSafety.OldOutputChangesSnapshot` says exactly when, and
  `LauncherExample.OldSignalUnnamesNewChild` gives a run that gets there. Output lines themselves never do it
  (`LauncherSafety.OldLinesChangeNothing`).
- A storage write that was applied without acknowledgement and then refused with 4xx on its retry stays on the server.
  `StorageQueue.OmitsIffNoLateRefusal` says exactly when the server omits every refused write, and
  `StorageQueue.LateRefusalStays` is a run where it does not.
- Clearing the refresh queue forgets runs that are still pending. A request of such a thread then starts a second refresh
  beside the first (`RefreshQueue.TwoInFlightAfterClear`); `RefreshQueue.AtMostOneIffNoOverlap` says that this is the only
  way to have two in flight.
- A request that waits for a further refresh when the queue is cleared gets none: its promise is fulfilled by the refresh
  that was already under way (`RefreshQueue.AbandonedAfterClear`). `RefreshQueue.PromisesKeptIffNoneAbandoned` is the exact
  condition.
- An id that starts with U+FEFF or holds a lone surrogate does not survive the reference-key codec: `TextDecoder` drops the
  byte order mark and `TextEncoder` replaces the surrogate. `ReferenceKey.IdOfKey` is the exact condition.
- A percentage half way between two integers is not always rounded up, because the quotient is a double: 23 of 40 is shown
  as 57 and 29 of 200 as 14 (web/src/taskProgress.ts:85). `TaskProgress.PercentDiffersAtTies` says that nothing but ties is
  affected.
- The comment at web/src/aiChatState.ts:161 speaks of skills only; agents count as one unit as well, and are modelled so.

## Model

| member | source | states |
|---|---|---|
| LauncherInvariant.KeepsStep | src-tauri/src/main.rs:1079-1528 | every step of every thread keeps the invariant that ties slot, generation, watchers, updates, snapshot and lock together |
| LauncherInvariant.RunInv | src-tauri/src/main.rs:1079-1528 | the invariant holds in every state of every run |
| LauncherSafety.AtMostOneLeader | src-tauri/src/main.rs:1190-1192 | at every moment of every run at most one spawned leader is alive, and while the lock is free it is the one in the slot |
| LauncherSafety.ExitIsPickedUp | src-tauri/src/main.rs:1390-1412 | whenever the lock is free and the slot is filled, the slot's leader has the current generation and a watcher that will win, so its exit is picked up |
| LauncherSafety.ClaimWinsIffNotStopping | src-tauri/src/main.rs:1390-1412 | whoever holds the lock, a watcher claims its leader's exit exactly when the slot names that leader, the last one spawned, and no stop is between its bump and emptying the slot; otherwise slot and generation stay |
| LauncherSafety.RunPersists | src-tauri/src/main.rs:1389-1478 | along a run leaders keep pid and generation, are never revived, and a finished watcher stays finished |
| LauncherSafety.SupersededWatcherIsHarmless | src-tauri/src/main.rs:1390-1426 | the watcher of a leader that a newer one has followed, or whose generation a stop or start has left behind, changes neither slot nor generation, even for an equal pid, and never asks to restart |
| LauncherSafety.TokensNeverCollide | src-tauri/src/main.rs:1247-1247 | no recovery token equals a start generation or another token |
| LauncherSafety.AtMostOneEligible | src-tauri/src/main.rs:1450-1455 | at most one pending recovery would pass its generation check |
| LauncherSafety.BumpCancelsRecovery | src-tauri/src/main.rs:1448-1455 | any stop or start after an exit was claimed cancels that recovery for the rest of the run |
| LauncherSafety.QuitIsFinal | src-tauri/src/main.rs:2166-2177 | once a quit or accepted exit has stopped the launcher no later step starts a child: none is spawned, none is alive, the slot stays empty |
| LauncherSafety.AcceptedQuitCloses | src-tauri/src/main.rs:2263-2274 | a quit or exit that is not refused does end in that closed state |
| LauncherSafety.SignalledIsShown | src-tauri/src/main.rs:1138-1150 | in every reachable snapshot a set open-signal pid is the child pid |
| LauncherSafety.OldOutputChangesSnapshot | src-tauri/src/main.rs:1109-1184 | an output thread of an older generation changes the snapshot exactly when its outstanding signal fails, and then it only clears the open-signal pid |
| LauncherSafety.OldLinesChangeNothing | src-tauri/src/main.rs:1120-1181 | after a stop or start no output line of an earlier leader changes the snapshot |
| LauncherSafety.RequestCleared | src-tauri/src/main.rs:1151-1158 | a pending open request is cleared exactly by the current child's acknowledgement or by the user declining the Codex restart |
| LauncherExample.OldSignalUnnamesNewChild | src-tauri/src/main.rs:923-935 | a reachable state in which an older output thread's failed signal clears the newer child's open-signal pid |
| TaskDependencyGraph.Descendants | web/src/taskDependencyGraph.ts:15-23 | the worklist finds exactly what containment reaches from the card, shared or circular |
| TaskDependencyGraph.CollectDescendants | web/src/taskDependencyGraph.ts:13-25 | the descendants of every card |
| TaskDependencyGraph.OwnerIsUnique | web/src/taskDependencyGraph.ts:26-29 | the owner is the one card that contains the task, and there is none otherwise |
| TaskDependencyGraph.AddContribution | web/src/taskDependencyGraph.ts:42-47 | merging one leaf dependency keeps one edge for each pair of cards, its `partial` flag, its evidence, and the order of both |
| TaskDependencyGraph.FirstsInOrder | web/src/taskDependencyGraph.ts:42-46 | elements listed once each stand in the order of their first occurrences, as the entries of a JavaScript map do |
| TaskDependencyGraph.ProjectTask | web/src/taskDependencyGraph.ts:35-48 | the inner loop projects all dependencies of one task, in their order |
| TaskDependencyGraph.ProjectEdges | web/src/taskDependencyGraph.ts:30-49 | the edges are the projection of all leaf dependencies in the order in which the loops come to them, the rest is external |
| TaskDependencyGraph.ProjectionIsFaithful | web/src/taskDependencyGraph.ts:32-49 | an edge exists exactly when some leaf dependency has those two distinct unique owners, is whole exactly when the cards themselves are one, and lists exactly the evidence |
| TaskDependencyGraph.ExternalIsFaithful | web/src/taskDependencyGraph.ts:37-40 | external prerequisites are exactly those of owned tasks whose own owner is missing or ambiguous |
| TaskDependencyGraph.Reachable | web/src/taskDependencyGraph.ts:55-65 | the worklist finds exactly the cards reachable through whole-card edges |
| TaskDependencyGraph.GroupCards | web/src/taskDependencyGraph.ts:66-71 | the groups partition the cards, and two cards share a group exactly when each reaches the other |
| TaskDependencyGraph.CondensationAcyclic | web/src/taskDependencyGraph.ts:53-71 | between groups there is no cycle |
| TaskDependencyGraph.GroupPathReaches | web/src/taskDependencyGraph.ts:66-71 | along a path of groups every card of the first reaches every card of the last |
| TaskDependencyGraph.DepthPass | web/src/taskDependencyGraph.ts:75-78 | one pass over the depth array never lowers a depth and puts every target below its source's old depth |
| TaskDependencyGraph.DepthPassCovers | web/src/taskDependencyGraph.ts:74-79 | each pass covers chains that are one edge longer |
| TaskDependencyGraph.GroupDepths | web/src/taskDependencyGraph.ts:72-79 | after exactly as many passes as groups, each depth is the longest chain of whole-card prerequisites ending there |
| TaskDependencyGraph.DepthsClimb | web/src/taskDependencyGraph.ts:74-79 | every ordering edge between groups strictly increases depth, and depths stay below the number of groups |
| TaskDependencyGraph.CardLevelsHaveNoGaps | web/src/taskDependencyGraph.ts:81-86 | the occupied levels are contiguous from 0 |
| TaskDependencyGraph.LayerCards | web/src/taskDependencyGraph.ts:81-86 | layer i holds, in display order, exactly the cards of depth i, and none is empty |
| TaskDependencyGraph.TaskDependencyGraph | web/src/taskDependencyGraph.ts:11-87 | the whole function meets all of the above: edges, evidence and external entries in the order of the tasks, and `crossed` says that two cards point at each other or a group has several cards |
| GoalWindowMap.CountInbound | web/src/components/GoalWindowMap.tsx:40-45 | the inbound counts, duplicate edges included |
| GoalWindowMap.CollectOutgoing | web/src/components/GoalWindowMap.tsx:41-45 | the targets of every node, one for each edge |
| GoalWindowMap.DequeueLowersInbound | web/src/components/GoalWindowMap.tsx:51-55 | dequeuing a node lowers each inbound count by the number of its edges there, so the count is that of edges from nodes not yet dequeued |
| GoalWindowMap.ReleaseTargets | web/src/components/GoalWindowMap.tsx:51-55 | the inner loop keeps the queue: each id is queued at most once, when its count reaches zero |
| GoalWindowMap.KahnVerdict | web/src/components/GoalWindowMap.tsx:57-57 | when the queue is empty, some id was never dequeued exactly when there is a cycle |
| GoalWindowMap.HasDirectedCycle | web/src/components/GoalWindowMap.tsx:39-58 | true exactly when the edges contain a directed cycle; otherwise the dequeuing order is a topological order of all ids |
| GoalWindowMap.ParseNodes | web/src/components/GoalWindowMap.tsx:66-79 | nodes are accepted exactly when all are well formed and no id repeats, and then they are the given ones |
| GoalWindowMap.ParseEdges | web/src/components/GoalWindowMap.tsx:80-86 | edges are accepted exactly when each joins two different known ids and has a known kind |
| GoalWindowMap.ParseDeclaration | web/src/components/GoalWindowMap.tsx:60-90 | a declaration is accepted exactly when its entries are in order and its edges contain no cycle |
| GoalWindowMap.RelaxPass | web/src/components/GoalWindowMap.tsx:105-109 | one pass lifts targets above their sources, and an unchanged pass changed nothing |
| GoalWindowMap.ComputeLevels | web/src/components/GoalWindowMap.tsx:102-111 | whether it breaks off early or runs out of passes, the level is the longest path length |
| GoalWindowMap.NodeLevels | web/src/components/GoalWindowMap.tsx:102-118 | row i holds, in order, exactly the nodes whose longest incoming path has i edges, no row is empty, and every edge leads to a strictly later row |
| GoalWindowMap.LevelsHaveNoGaps | web/src/components/GoalWindowMap.tsx:112-117 | no level is skipped, so rows and levels agree |
| GoalWindowMap.DisplayRows | web/src/components/GoalWindowMap.tsx:160-164 | the same for the main nodes and coordination edges that an accepted declaration shows |
| TaskProgress.CollectChildren | web/src/taskProgress.ts:18-28 | the children of a task are its sub-issues and every task that names it as parent, each once |
| TaskProgress.ProgressWalk.Visit | web/src/taskProgress.ts:57-71 | the traversal adds only what the id reaches, leaves no edge out of what it added, and keeps the leaves and the completeness of what was visited |
| TaskProgress.VisitAll | web/src/taskProgress.ts:72-72 | exactly the ids reachable from the given ones are visited |
| TaskProgress.ProgressFor | web/src/taskProgress.ts:53-89 | each non-canceled leaf counts once despite sharing and cycles; completed and implemented stay within their totals |
| TaskProgress.Percent | web/src/taskProgress.ts:84-85 | however the quotient is rounded to a double, the percentage is the ratio to the nearest integer, either way at a tie, 100 exactly when all is completed, and 99 for everything else from 98.5 per cent on |
| TaskProgress.PercentDiffersAtTies | web/src/taskProgress.ts:84-85 | two ways to round the quotient give different percentages only for a ratio half way between them |
| TaskProgress.HundredMeansDone | web/src/taskProgress.ts:79-87 | 100 is reported exactly when a leaf exists, all leaves are done and nothing reachable is missing |
| TaskProgress.ForTask | web/src/taskProgress.ts:91-102 | the cases of a single task, and when it reports 100 |
| TaskProgress.RoadmapBuilder.List | web/src/taskProgress.ts:106-112 | one call appends the task and everything below it that is not listed yet, all deeper than the task, siblings in the order of the tasks |
| TaskProgress.RoadmapBuilder.ListAll | web/src/taskProgress.ts:113-115 | listing tasks one after the other at one depth: only they stand at that depth, in their order |
| TaskProgress.BuildRoadmap | web/src/taskProgress.ts:104-115 | the roadmap lists every task once, in a preorder where the nearest earlier shallower entry is a parent, one level up; siblings follow the order of the tasks, and at the top so do first the roots and then the tasks that no root reaches |
| TaskProgress.RecordsAreLast | web/src/taskProgress.ts:14-15 | repeated ids collapse: exactly the last record of each id is loaded, once |
| TaskProgress.CreateTaskProgressModel | web/src/taskProgress.ts:13-118 | children, project progress and roadmap of the loaded tasks together, for every list of tasks |
| Composer.Normalize | web/src/aiChatState.ts:135-155 | no empty text, no adjacent texts, same atoms |
| Composer.CanonicalIsNormal | web/src/aiChatState.ts:135-155 | every atom sequence has a normal document |
| Composer.NormalIsCanonical | web/src/aiChatState.ts:135-155 | and only one |
| Composer.SameNormalForm | web/src/aiChatState.ts:135-155 | two documents normalize to the same result exactly when their atoms agree |
| Composer.Length | web/src/aiChatState.ts:157-159 | the document length is the number of atoms |
| Composer.Split | web/src/aiChatState.ts:162-188 | the halves hold the atoms before and after the truncated, clamped offset, which is the last whole number up to the offset within the document; references stay whole |
| Composer.Replace | web/src/aiChatState.ts:190-205 | replacing a range is splicing the flattened document, for every document, replacement and pair of offsets; the result is normal and its references are those in front, the inserted ones and those behind |
| Composer.InsertText | web/src/aiChatState.ts:207-213 | inserting text inserts its units |
| Composer.InsertRef | web/src/aiChatState.ts:215-241 | inserting a skill or agent puts one atom in place of the range |
| Composer.Delete | web/src/aiChatState.ts:243-249 | deleting removes the range |
| Composer.InsertThenDelete | web/src/aiChatState.ts:190-249 | inserting and then deleting the same span restores the normalized document |
| Composer.ReferencesSurvive | web/src/aiChatState.ts:190-205 | the references of an edited document are in order those in front of the range, those of the replacement and those behind; with those inside the range they were the references before |
| JsText.TextRoundTrip | web/src/components/AiChat.tsx:334-334 | a string is what its scalar values spell exactly when it has no lone surrogate |
| JsText.Utf8RoundTrip | web/src/components/AiChat.tsx:317-320 | strict decoding returns the encoded scalar values |
| JsText.Utf8Onto | web/src/components/AiChat.tsx:317-320 | what strict decoding accepts is the encoding of what it returns |
| JsText.DecodeEncode | web/src/components/AiChat.tsx:317-320 | decoding an encoded string returns it exactly when it has no lone surrogate and no byte order mark in front |
| Base64Url.BytesRoundTrip | web/src/components/AiChat.tsx:314-316 | decoding the encoding of bytes returns them |
| Base64Url.CanonicalIffZeroPadBits | web/src/components/AiChat.tsx:320-323 | encoding what a key decodes to returns the key exactly when its pad bits are zero |
| ReferenceKey.AcceptedIffEncoded | web/src/components/AiChat.tsx:309-338 | a bijection: a key is accepted with an id exactly when the id is valid and the key is its encoding |
| ReferenceKey.IdOfKey | web/src/components/AiChat.tsx:309-338 | decoding the key of an id returns it exactly when it is non-empty, well formed, without byte order mark and, for a skill, normalized |
| ReferenceKey.SkillIdOfKey | web/src/components/AiChat.tsx:333-333 | a skill id comes back normalized |
| ReferenceKey.KeysDiffer | web/src/components/AiChat.tsx:329-338 | valid ids have different keys |
| ReferenceKey.AcceptedIffCanonical | web/src/components/AiChat.tsx:314-324 | a key is accepted exactly when it is canonical base64url of acceptable text: bad lengths, foreign characters and non-zero pad bits are rejected |
| ComposerFragments.Print | web/src/components/AiChat.tsx:520-530 | each marker gives way to its reference's Markdown, in order |
| ComposerFragments.Collect | web/src/components/AiChat.tsx:683-718 | the loop with its cursor builds the fragment of the matches: text between taken references, markers of the text neutralized, matches without an id left as text |
| ComposerFragments.ScanAligned | web/src/components/AiChat.tsx:710-713 | for every text the message has one marker for each reference |
| ComposerFragments.FragmentRoundTrip | web/src/components/AiChat.tsx:679-719 | for every pattern that reads printed references back, collecting a printed fragment returns it |
| ReferenceMarkdown.UnescapeEscape | web/src/components/AiChat.tsx:340-342 | unescaping an escaped label returns it |
| ReferenceMarkdown.EscapedLabel | web/src/components/AiChat.tsx:689-689 | the label part of the pattern takes an escaped label whole and stops at the closing bracket |
| ReferenceMarkdown.LinkMatches | web/src/components/AiChat.tsx:344-352 | the pattern matches a printed link with its label, kind and key, whatever follows |
| ReferenceMarkdown.SkipPlain | web/src/components/AiChat.tsx:689-690 | after text without an opening bracket the first match is the link |
| ReferenceMarkdown.FromPlainText | web/src/components/AiChat.tsx:679-719 | the parsed fragment is the scan of the text with the reference pattern |
| ReferenceMarkdown.ParsedReference | web/src/components/AiChat.tsx:691-709 | every parsed reference carries the key of its id: a stable link one that was checked, a link to a skill file one made from its label |
| ReferenceMarkdown.PrintParseRoundTrip | web/src/components/AiChat.tsx:520-719 | printing and parsing returns the same message, ids, kinds, keys and labels, whatever brackets and backslashes the labels contain |
| ReferenceMarkdown.StableRoundTrip | web/src/components/AiChat.tsx:309-719 | the same with the program's key codec, for references to any valid ids |
| RefreshQueue.InFlightIsBusy | web/src/aiChatState.ts:374-399 | in every run, before and after a clear, the refreshes of a thread in flight are those its runs await |
| RefreshQueue.AtMostOneIffNoOverlap | web/src/aiChatState.ts:374-399 | a thread has at most one refresh in flight throughout a run exactly when no step requests it while it has no state and a run of it still awaits its refresh |
| RefreshQueue.OneInFlight | web/src/aiChatState.ts:374-394 | so before a clear a thread has at most one refresh in flight, and one exactly while it has a state |
| RefreshQueue.TwoInFlightAfterClear | web/src/aiChatState.ts:396-399 | a run in which two refreshes of one thread are in flight |
| RefreshQueue.PromisesKeptIffNoneAbandoned | web/src/aiChatState.ts:374-399 | in every run each promise is fulfilled only after a refresh that started later than every request sharing it, exactly when no step ends a successful refresh after a clear while a request waits for another one |
| RefreshQueue.RequestsAreServed | web/src/aiChatState.ts:374-394 | so before a clear a promise is fulfilled only after a refresh started later than every request that shares it |
| RefreshQueue.AbandonedAfterClear | web/src/aiChatState.ts:385-399 | a run in which a request is answered by the refresh that was already under way |
| RefreshQueue.OtherThreadsUntouched | web/src/aiChatState.ts:367-394 | a step of another thread changes neither a thread's state nor its history |
| RefreshQueue.RequestsShare | web/src/aiChatState.ts:375-379 | requests during a pending refresh share its promise and start nothing |
| RefreshQueue.Round | web/src/aiChatState.ts:385-392 | what one round of a run does to the thread's history, for success and failure, with and without requests |
| RefreshQueue.RequestsCoalesce | web/src/aiChatState.ts:374-394 | any number of requests during a successful refresh cause exactly one further refresh, after all of them, and their promise is fulfilled only when it ends |
| RefreshQueue.Queue.Request | web/src/aiChatState.ts:374-395 | the method does the abstract step and returns the thread's pending run, if there is one |
| RefreshQueue.Queue.Settle | web/src/aiChatState.ts:386-392 | the loop's round and the `finally` handler do the abstract step |
| RefreshQueue.Queue.Clear | web/src/aiChatState.ts:396-399 | clearing does the abstract step |
| StorageQueue.ChainKeepsOrder | web/src/storage.ts:8-9 | finished and pending writes together are the issued ones in order, and memory is the replay of all of them |
| StorageQueue.ServerReplaysPrefix | web/src/storage.ts:8-35 | under any pattern of failures the server is the initial store with a prefix of the issued writes replayed, without those refused before ever being applied |
| StorageQueue.OmitsIffNoLateRefusal | web/src/storage.ts:21-31 | every refused write is omitted at every moment exactly when no step refuses a write that was applied earlier and not already in the store |
| StorageQueue.LateRefusalStays | web/src/storage.ts:21-31 | a run in which a refused write stays on the server |
| StorageQueue.DrainedAgrees | web/src/storage.ts:68-88 | once drained, server and memory agree on every key whose last write was delivered |
| StorageQueue.DrainedIsMemory | web/src/storage.ts:68-88 | once drained without refusal, the server equals memory |
| StorageQueue.BackoffDoubles | web/src/storage.ts:12-31 | the delay after n failures is 250 ms doubled n times, at most 5 s |
| StorageQueue.Client.SetItem | web/src/storage.ts:72-79 | setting an item does the abstract step |
| StorageQueue.Client.RemoveItem | web/src/storage.ts:80-87 | removing an item does the abstract step |
| StorageQueue.Client.Send | web/src/storage.ts:12-33 | the request loop does one abstract step for each answer and ends with the first success or 4xx: every earlier answer was another failure |
| BoardMoves.SortOrderAt | web/src/App.tsx:2586-2594 | the new sort order lies strictly between those of the neighbours |
| BoardMoves.TargetIndex | web/src/App.tsx:2564-2570 | the target index is 0 for a changed status without a drop position, else that of the given task, else the end |
| BoardMoves.IndexOf | web/src/App.tsx:2567-2570 | the first task with the id, or the end when there is none |
| BoardMoves.StaysPutColumn | web/src/App.tsx:2573-2585 | a move that returns early finds the column as asked for |
| BoardMoves.MoveColumns | web/src/App.tsx:2559-2600 | after a move the target column is the old one with the task inserted at the target index, and every other column only loses the moved task |
| BoardMoves.MoveKeepsBoard | web/src/App.tsx:2559-2600 | a move keeps every column strictly increasing and ids unique |
| BoardMoves.ConfirmKeepsPlaces | web/src/App.tsx:2602-2606 | an answer that names the shown place takes the shown record's place in its column, with its new version, and changes nothing else |
| BoardMoves.AnswerPlaced | web/src/App.tsx:2602-2606 | any answer puts its record where its sort order belongs among the other tasks of its column, which keep their order, and takes it out of every other column |
| BoardMoves.RollbackRestores | web/src/App.tsx:2613-2616 | a refused move, or one undone at once, restores every column |
| BoardMoves.SettledColumns | web/src/App.tsx:2546-2616 | every column after a whole move: an accepted one has put the task, with the version of the answer, at its index, and a refused one has left all columns as they were |
| BoardMoves.RunKeepsBoard | web/src/App.tsx:2546-2616 | any run of moves keeps every column strictly increasing |
| BoardMoves.RunKeepsTasks | web/src/App.tsx:2546-2616 | no run of moves loses or duplicates a task |
| BoardMoves.SortedColumn | web/src/App.tsx:565-569 | sorting the list sorts every column |
| BoardMoves.TaskList.BeginMove | web/src/App.tsx:2546-2600 | the part before the request yields the move's list and record, and nothing while another move is under way |
| BoardMoves.TaskList.EndMove | web/src/App.tsx:2602-2616 | on a board that shows the task, the answered record stands in its column where its sort order puts it and all other tasks keep their order; a record that names the shown place takes exactly that place |
| BoardMoves.TaskList.Move | web/src/App.tsx:2546-2616 | a whole move is the settled move of the specification, whose columns `SettledColumns` gives |
| SkillDigest.Collector.Collect | src-tauri/src/main.rs:481-507 | true exactly when there are only files and directories with some file below each, and then the vector grows by the files below |
| SkillDigest.Stream | src-tauri/src/main.rs:509-524 | the stream is the encoding of the sorted listing, and there is none for a directory that is not plain |
| SkillDigest.PathsAreFiles | src-tauri/src/main.rs:516-516 | every collected path can be read as a file |
| SkillDigest.PathTextSplits | src-tauri/src/main.rs:518-518 | a normalized path splits back into its components, when these hold neither slash nor backslash |
| SkillDigest.LexIsOrder | src-tauri/src/main.rs:514-514 | the component-wise path order is a total order |
| SkillDigest.DecodeEncode | src-tauri/src/main.rs:516-521 | the stream is uniquely decodable when paths hold no NUL byte and lengths fit 64 bits |
| SkillDigest.EncodeDecode | src-tauri/src/main.rs:516-521 | every decodable stream is the encoding of what it decodes to |
| SkillDigest.SameStreamIsSameListing | src-tauri/src/main.rs:509-524 | two directories feed the hash the same bytes exactly when their sorted listings agree |
| SkillDigest.OrderDoesNotMatter | src-tauri/src/main.rs:481-524 | the stream, and whether there is one, do not depend on the order of directory enumeration |

## Left out

- Rendering, selection, clipboard and drag handling, and HTML import of fragments: user interface.
- The injected user scripts and host integrations: page discovery and timers.
- HTTP, server-sent events, update download and signature check: an update succeeds or fails by choice of the environment.
- The server's own sort orders and its rejection of out-of-range ones: a move is accepted or refused by choice of the environment.
- Launcher: process spawning, dialogs, log files, pid records and the Windows control pipe are reduced to their effect on the shared state; wrap-around of the 64-bit generation, poisoned mutexes, signals sent to a recycled pid, and the messages shown are not modelled.
- Launcher: the final exit event is taken to follow an accepted exit request.
- TaskDependencyGraph: task and card ids are distinct, edge keys are pairs of ids rather than strings joined by a NUL, and the display order of cards (plan group, then identifier by locale) is a parameter.
- CreateTaskProgressModel: the latest change of a subtree is not part of the model that is returned.
- TaskProgress: the order of tasks by creation time and identifier is a parameter, and so is the double quotient; JavaScript's is as close to the exact one as assumed for totals below 2 to the 44th.
- GoalWindowMap: extraction of the fenced JSON from a comment.
- ParseNodes: the checks of a node's single fields are summed up in whether its candidate is well formed; only the id, the kind and the check for repeated ids are modelled.
- ParseDeclaration: starts from the node and edge candidates of the parsed JSON.
- Composer: offsets that are not a number; infinite offsets behave as clamped ones.
- ReferenceMarkdown: a message with an opening bracket, where the pattern may start a label earlier, is outside the round trip, as are labels that are empty or have a line break.
- Move: an accepted request is answered with the record that was sent and a new version; `EndMove` covers every other answer.
- BoardMoves: exhaustion of floating-point midpoints, tasks created or moved by others during a run, and an undo after later moves.
- RefreshQueue: the moment between the end of a run's loop and its `finally` handler; a request arrives either while a refresh is pending or when the thread has no state.
- StorageQueue: a browser with local storage, where writes go there and nowhere else; writes made before initialization; a second writer on the same server; a failed attempt was either applied by the time it fails or never is.
- SkillDigest: I/O errors, a directory that lists a name twice, and files changed between collection and reading; SHA-256 itself.
- Filters, labels, routes, execution-state tables, dashboards and Gantt arithmetic, and the task-flow traversal: each repeats an argument made here or is settled by reading one branch.
