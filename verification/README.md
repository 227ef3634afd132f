# Verified models of Macchiato's agent core

Dafny models of the parts of the system whose correctness depends on state that several steps share,
with proofs about every input, every run or every reachable state. `dafny verify dfyconfig.toml`
checks the project.

| modules | what they model |
|---|---|
| `Conversation`, `Loader`, `Clearing`, `TurnPairing`, `TurnRuns`, `TurnOutcomes`, `AgentTurn` | the message list of a chat session as a protocol: each tool call of an assistant message must be answered in the run of tool messages right behind it. The repair that inserts into the list while scanning it, the filter for orphaned tool messages, the passes that shrink old results, and a whole agent turn around them |
| `TimeSlots`, `FreeTime`, `Planner`, `PlannerEngine`, `PlanSafety`, `Preference` | the planner: working windows minus busy events, then greedy placement with breaks. Lists of intervals are measured instant by instant (`Load`) and in seconds (`TotalTime`) |
| `MarkerScan`, `BashRuntime` | reading two output streams of a shell up to their end markers, chunk by chunk, into one output budget |
| `BlobCodec`, `BlobReceiver`, `BlobRuns` | the binary blob stream: frame codec, the worker's push receiver, and the transfer of a whole file |
| `TokenBudget` | token estimates and the truncations built on them |
| `AskUser`, `AskUserRuns` | the registry of questions that wait for a user's answers |
| `McpPool` | tool-server connections counted by reference across client managers |
| `WorkingSet`, `MergeTree` | the LRU of recently used tools; merging one directory tree into another |
| `Text`, `Bytes` | trimming, decimal text, bytes |

Code that works by updating things in place is modelled by classes and loops
(`ConversationContext`, `AgentCore`, `Engine`, `MarkerReader`, `OutputBudget`, `RemoteWorkerClient`,
`AskUserRegistry`, `SharedMCPPool`, `MCPClientManager`, `ToolWorkingSetManager`). Each of their methods
is proved to do what a function on values says, and the properties are proved of those functions and
of runs of them; what single operations come to is stated once more without these functions (the
`...Outcome` lemmas and the predicates they ensure). What the system asks of the outside world (model, tools, kernel, other terminals,
scheduling of the two stream readers, order of frames) is a parameter that the theorems quantify over.
Texts the program only displays or stores are given in English.

Points where the code differs from what its comments say; the model follows the code:

- `src/agent_core/agent/agent.py:1438-1442` logs that it clears results "keep=2" after an overflow;
  the code keeps none (`:2332`, `:2341`).
- `src/agent_core/planner/engine.py:222-223` sorts by start alone when it puts back the rest of a slot,
  so the preference for workdays can be lost; `Preference.PlanPrefersWorkdays` says exactly for which
  free slots, and `Preference.PreferenceLost` gives a plan.
- `src/agent_core/agent/tool_result_clearing.py:144` says that a placeholder still over the limit is cut
  again; under a limit of 21 tokens that never makes it fit (`Clearing.SmallLimitNeverSettles`).
- `src/agent_core/agent/tool_result_overflow.py:229-247` guards against overlapping ends and tightens
  once more; `TokenBudget.PreviewAround` shows that none of these branches is ever taken.
- `src/agent_core/permissions/ask_user_registry.py:273-276` rejects a completed batch again;
  `AskUserRuns.FragmentNeverRefusedWhole` shows that this branch is never taken.

## Model

| member | source | states |
|---|---|---|
| `Conversation.ConversationContext.RepairDanglingAssistantToolCalls` | `src/agent_core/context/conversation.py:28-79` | The in-place scan, which lengthens the list it scans, ends, leaves the list that `Repair` describes, and returns exactly the number of inserted messages. |
| `Conversation.ConversationContext.RepairStep` | `src/agent_core/context/conversation.py:42-79` | Each step of the scan consumes a part of the unread list and leaves `done + Repair(unread)` as it was: the position after an insertion is neither too early nor too late. |
| `Conversation.ConversationContext.InsertAnswers` | `src/agent_core/context/conversation.py:62-76` | The answers appear at one place, in the order of the missing ids, with everything else where it was. |
| `Conversation.ToolCallIds` | `src/agent_core/context/conversation.py:14-25` | The loop collects exactly the trimmed, non-blank ids, in order, whatever else the list holds. |
| `Conversation.AnsweredIff` | `src/agent_core/context/conversation.py:32-41` | The declarative reading of the protocol (for each caller and id there is an answer at some place of the run behind it) and the recursive one the proofs use are the same. |
| `Conversation.AnsweredPlainly` | `src/agent_core/context/conversation.py:14-41` | In plain terms, without the collected ids: a list is answered if and only if each call with a non-blank id has, in the run behind its message, a tool message whose id is the same up to blanks. |
| `Conversation.CallIdsAt` | `src/agent_core/context/conversation.py:14-25` | The collected ids are the trimmed ids at the increasing positions of exactly those entries that have one, so none is lost, repeated or moved. |
| `Conversation.RepairFixpoint` | `src/agent_core/context/conversation.py:28-79` | After the repair every call is answered; a second repair changes nothing; a list is left alone if and only if all its calls were answered already. |
| `Conversation.RepairKeepsMessages` | `src/agent_core/context/conversation.py:28-79` | The input is a subsequence of the output. |
| `Conversation.RepairAddsOnlyAnswers` | `src/agent_core/context/conversation.py:55-79` | As multisets, the output is the input plus exactly one synthetic answer per unanswered call. |
| `Conversation.RepairGrowth` | `src/agent_core/context/conversation.py:209-211` | The list grows by the number of unanswered calls. |
| `Loader.StripOrphanToolMessages` | `src/agent_core/kernel_interface/loader.py:24-43` | The scan that looks at its last output computes `StripOrphans`. |
| `Loader.StripDropsExactlyOrphans` | `src/agent_core/kernel_interface/loader.py:24-43` | What is kept is, message by message, everything but the tool messages outside every run that an assistant message with tool calls heads. |
| `Loader.StripOrphansCorrect` | `src/agent_core/kernel_interface/loader.py:24-43` | The result has every tool message headed; a list is unchanged if and only if it was so before; no answered call loses its answer. |
| `Loader.RequestWellPaired` | `src/agent_core/kernel_interface/loader.py:66-77` | Whatever the history, repair followed by strip gives a request with every call answered in its own run and every tool message in a caller's run, and assembling that again changes nothing. |
| `Clearing.ScrubOversizedToolResults` | `src/agent_core/agent/tool_result_clearing.py:122-179` | The loop replaces the contents of exactly the tool results above a positive limit, in place, by texts that start with the marker, and counts none exactly when there are none. |
| `Clearing.ScrubSettles` | `src/agent_core/agent/tool_result_clearing.py:139-163` | Scrubbing brings every tool result under the limit if and only if, for each oversized one, the limit reaches (3 (83 or 103 + id + digits + path) + 5 CJK) / 12 + 1 tokens, from the lengths and CJK characters of its id, token count and path. |
| `Clearing.ScrubCost` | `src/agent_core/agent/tool_result_clearing.py:104-119` | A placeholder costs exactly that. |
| `Clearing.SmallLimitNeverSettles` | `src/agent_core/agent/tool_result_clearing.py:143-163` | With a limit of 21 tokens or less they never do: what was too large is too large after every further pass. |
| `Clearing.ClearStaleToolResults` | `src/agent_core/agent/tool_result_clearing.py:182-258` | The loop over the list of tool positions clears exactly the tool results with at least `keep_recent` tool messages behind them that show no placeholder and cost more than the floor and more than nothing; their contents then start with the marker, and everything else is as it was. |
| `Clearing.ClearAllAs` | `src/agent_core/agent/tool_result_clearing.py:207-258` | The same of the function the passes are modelled by, counted by the set of tool positions behind a message. |
| `Clearing.AlreadyClearedIff` | `src/agent_core/agent/tool_result_clearing.py:99-101` | A text counts as a placeholder if and only if one of the two markers stands in it behind nothing but blanks. |
| `Clearing.PlaceholderParts` | `src/agent_core/agent/tool_result_clearing.py:104-119` | A placeholder is its marker, the id or "unknown", the token count, the path or the hint in its place. |
| `Clearing.ToolPositionsInverse` | `src/agent_core/agent/tool_result_clearing.py:207-213` | The collected list of positions and the rank of a tool message in the list are inverse to each other, both ways. |
| `Clearing.ClearKeepsShapeAndIsIdempotent` | `src/agent_core/agent/tool_result_clearing.py:182-258` | Clearing changes contents of tool messages only, and clearing again changes nothing. |
| `Clearing.ShapeKeepsPairing` | `src/agent_core/agent/tool_result_clearing.py:122-258` | A pass that changes only contents of tool messages neither breaks nor repairs the pairing of calls and answers. |
| `TurnPairing.CutPairing` | `src/agent_core/context/conversation.py:32-79` | Cut in front of any message that is no tool result, the unanswered calls of a list are those of its two parts. |
| `TurnPairing.CompressionCut` | `src/system/kernel/kernel.py:378-400` | Compression, which keeps the turns from a user message on behind a summary, keeps every call answered. |
| `TurnPairing.AllResultsAnswer` | `src/agent_core/agent/agent.py:1644-1757` | Storing the results of all calls of a reply answers them all, with blank or repeated ids too. |
| `TurnPairing.InterruptedGaps` | `src/agent_core/agent/agent.py:1644-1757` | Interrupted between results, a turn leaves open exactly the calls of its last caller that the stored results do not answer. |
| `TurnPairing.RepairAppends` | `src/agent_core/context/conversation.py:42-79` | Repairing such an interrupted list is appending one synthetic answer per open call, at its end. |
| `TurnPairing.ClosedAfterResults` | `src/agent_core/agent/agent.py:1644-1757` | With distinct ids, closing a turn after `m` results leaves exactly the later calls open, and the repair brings the list to the length it would have had uninterrupted. |
| `TurnPairing.ForeignMessageRepaired` | `src/agent_core/context/conversation.py:42-79` | A message of someone else between a caller's results makes the repair answer, in front of it, the calls whose results come behind it. |
| `TurnPairing.ForeignMessageRequest` | `src/agent_core/kernel_interface/loader.py:66-77` | What is then sent ends with that message, as if the results behind it had not come. |
| `AgentTurn.AgentCore.ShrinkToolResults` | `src/agent_core/agent/agent.py:2256-2259` | Scrubbing then clearing keeps the shape of the list, and so the pairing, in both directions. |
| `AgentTurn.AgentCore.Compact` | `src/agent_core/agent/agent.py:2327-2342` | After the recovery from an overflow every tool result is empty or a recognised placeholder, and the list has the shape of what the kernel's compression left. |
| `AgentTurn.AgentCore.Assemble` | `src/agent_core/kernel_interface/loader.py:66-77` | The history itself is repaired, the request sent is its stripped copy, and every request sent stays one the API accepts. |
| `AgentTurn.AgentCore.AskModel` | `src/agent_core/agent/agent.py:1377-1598` | The calls made are exactly those up to the first that is not retried, one to three of them, at most one retried for an overflow and one for missing reasoning: it raises for a failed call or a second overflow, ends with `error` for a second reply without reasoning, and answers with the first usable reply. The last call is asked with the old history repaired, and compacted once for an overflow in between. |
| `AgentTurn.AgentCore.RunTools` | `src/agent_core/agent/agent.py:1644-1757` | Each call started is handed to the kernel once, in order; behind the old list come the assistant message with the calls and, with their ids and texts, the results of the calls before the first that does not proceed; how the run ends is how that call ends; completed, it leaves every call answered. |
| `AgentTurn.AgentCore.TryInjectGoalCheck` | `src/agent_core/agent/agent.py:500-532` | A goal check is injected if and only if goals are open and nudges are left; it costs one nudge and keeps every call answered. |
| `AgentTurn.AgentCore.CheckWindow` | `src/agent_core/agent/agent.py:1361-1375` | Over the threshold the kernel is asked once, and how that ends is how the check ends; below it only contents of tool messages change. The history is shrunk before and, if compression went well, after. |
| `AgentTurn.AgentCore.HandleReply` | `src/agent_core/agent/agent.py:1600-1852` | For each kind of reply: what is appended, message by message, whether the turn returns and with which status, or goes on, a final answer with open goals, a nudge and an iteration left leading to a goal check; a return is yielded exactly when the step returns. |
| `AgentTurn.AgentCore.Iterate` | `src/agent_core/agent/agent.py:1356-1859` | One iteration is related to the point before it by `Iterated`: window check, calls and the handling of their reply determine messages, calls, nudges and the step. It leaves every call answered unless it fails or is closed; closed between results, it is cut short inside one tool run. |
| `AgentTurn.AgentCore.RunLoop` | `src/agent_core/agent/agent.py:1325-1885` | Every run is a trace of such iterations with one end: a run in an environment that never raises or closes returns; a failure or closing has its cause in the last iteration; a failure restores the list that iteration started with; returning is the last thing yielded and happens once, with the status the last call calls for or because no iteration is left; at most 3 x max_iterations calls and min(nudge limit, max_iterations - 1) goal checks; a run completes only if no goals are open at its last call or no nudge or iteration is left to go back to them; every request was well paired; without compression the history it started with stays in front. |
| `AgentTurn.AgentCore.PrepareTurn` | `src/agent_core/agent/agent.py:1158-1261` | Rows of other terminals are merged, a user row as a user message and any other as an assistant message, each with its text; the result is repaired and the user's text is added, so the loop starts with every call answered, whatever was there before. |
| `AgentTurn.AgentCore.ProcessInput` | `src/agent_core/agent/agent.py:1282-1323` | The same of a whole turn, which starts from the repaired merged history and the user's text: afterwards every call is answered; the final repair changes nothing after a return or a failure, and after a closing between results appends exactly one message per open call; without compression the history the turn started with stays in front, whatever its end. |
| `TurnRuns.QuietEnd` | `src/agent_core/agent/agent.py:1325-1885` | A run whose environment never raises or closes returns. |
| `TurnRuns.StepCause` | `src/agent_core/agent/agent.py:1361-1859` | An iteration fails only for a raising compression, a failed call, a second overflow, a final answer that cannot be recorded or the first tool call not to proceed, and is closed only at the compression or by such a tool call. |
| `TurnRuns.StepVerdict` | `src/agent_core/agent/agent.py:1548-1852` | The status of a returning iteration is the one its last model call calls for. |
| `TurnOutcomes.AskedUntilOnce` | `src/agent_core/agent/agent.py:1377-1598` | The calls of one question to the model: each but the last exceeded the context or lacked reasoning, neither twice among them, and the last did neither unless for the second time; its outcome decides the reply. |
| `TurnOutcomes.AskedIs` | `src/agent_core/agent/agent.py:1377-1598` | The last call is asked with the repaired list, or, after an overflow, with the repair of the list that shrinking, compression and shrinking with nothing kept made of it. |
| `TurnOutcomes.StepOutcome` | `src/agent_core/agent/agent.py:1361-1852` | Every iteration ends as the outcome of its last call calls for: error, overflow, fallback, a failure, a closing, completion, or going on; it goes on after all tool calls proceeded, and after a final answer if and only if goals are open and a nudge and an iteration are left, and then one nudge is spent. Behind the list it asked with it leaves exactly the assistant message with its results, the answer, or the answer and the goal check. |
| `TurnOutcomes.RunEndsSo` | `src/agent_core/agent/agent.py:1325-1885` | So does every iteration of a run; a run out of iterations overflows; a failure restores the shape of the list its iteration started with. |
| `TurnOutcomes.CompletedWithoutGoals` | `src/agent_core/agent/agent.py:1825-1852` | A run completes only if no goals are open after its last call, or the nudges are spent, or it was the last iteration. |
| `TurnRuns.StepContinues` | `src/agent_core/agent/agent.py:1361-1852` | Without compression an iteration only appends to the history and replaces contents of tool messages in it. |
| `TurnRuns.RunContinues` | `src/agent_core/agent/agent.py:1325-1885` | So does a whole run, also when it is rolled back or cut short. |
| `TurnRuns.FinalRepair` | `src/agent_core/agent/agent.py:1899-1912` | The repair at the end of a turn leaves answered histories alone and only appends to one that was cut short. |
| `Text.StripExactly` | `src/agent_core/context/conversation.py:20-24` | Trimming an id takes blanks off both ends, all of them, and nothing else. |
| `TokenBudget.EstimateTokens` | `src/agent_core/memory/working_memory.py:29-35` | The counted estimate is floor((8c + 3o) / 12) + 1 for c CJK and o other characters, and 0 for the empty text. |
| `TokenBudget.EstimateMonotone` | `src/agent_core/memory/working_memory.py:29-35` | A prefix or suffix never costs more than the whole text. |
| `TokenBudget.EstimateSubadditive` | `src/agent_core/memory/working_memory.py:29-35` | Gluing two texts never costs more than both apart. |
| `TokenBudget.TruncateToTokens` | `src/agent_core/agent/tool_result_overflow.py:176-196` | The binary search returns the longest prefix within the budget: every longer prefix is over it. |
| `TokenBudget.TruncateToTokensSuffix` | `src/agent_core/agent/tool_result_overflow.py:199-213` | The binary search returns the longest suffix within the budget. |
| `TokenBudget.HeadTailApart` | `src/agent_core/agent/tool_result_overflow.py:229-240` | Two ends kept for half a budget each cannot meet in a text over the budget, and neither is empty or the whole. |
| `TokenBudget.HeadTailPreview` | `src/agent_core/agent/tool_result_overflow.py:216-247` | A preview never exceeds its budget on any branch, and is the text itself, its longest affordable prefix, or the longest affordable ends around the separator. |
| `FreeTime.BuildWorkingSlots` | `src/agent_core/planner/engine.py:45-68` | A result exactly when every window that falls on a planned day has hours below 24 and minutes below 60, and then slots that cover exactly the instants of the planned days at which some window is open, by start. |
| `FreeTime.WorkingExactly` | `src/agent_core/planner/engine.py:45-68` | An instant is covered if and only if it lies on one of the days and within the hours and minutes of a window of its weekday. |
| `FreeTime.ReadableIff` | `src/agent_core/planner/engine.py:45-68` | The windows of the planned days can be read if and only if their hours and minutes are in range. |
| `FreeTime.WorkingLoad` | `src/agent_core/planner/engine.py:45-68` | If windows of one weekday do not overlap, no instant of any number of days is covered twice. |
| `FreeTime.BusyExactly` | `src/agent_core/planner/engine.py:70-89` | Inside the window, an instant is busy if and only if some blocking, not cancelled event covers it. |
| `FreeTime.SubtractOne` | `src/agent_core/planner/engine.py:91-119` | The loop cuts the busy interval out of every slot and keeps their order. |
| `FreeTime.SubtractBusy` | `src/agent_core/planner/engine.py:121-138` | The loops compute all cuts, then drop the fragments below the minimum block and sort. |
| `FreeTime.SubtractAllExact` | `src/agent_core/planner/engine.py:91-138` | At every instant what is left is the working load minus busy time, exactly; fragments are proper and stay inside one working slot. |
| `FreeTime.FreeTimeExact` | `src/agent_core/planner/engine.py:121-138` | Free and lost fragments together cover exactly working time that is not busy; the lost ones are precisely the whole fragments below the minimum block. |
| `Planner.PlaceOneConserves` | `src/agent_core/planner/engine.py:193-223` | Placing a task splits the free time, instant by instant and in seconds, into what it takes, what stays free and a dropped remainder. |
| `Planner.PlaceAllConserves` | `src/agent_core/planner/engine.py:179-223` | The same over all tasks, each block inside one free slot's working slot and each dropped remainder below the minimum block. |
| `Planner.PlaceOneShrinks` | `src/agent_core/planner/engine.py:193-223` | Placing a task never makes room for a length nothing fitted before. |
| `Preference.PreferredSlot` | `src/agent_core/planner/engine.py:184-191` | A task takes the first slot, in the order in force, of all that fit it. |
| `Preference.PreferenceKept` | `src/agent_core/planner/engine.py:200-223` | Placing a task keeps workdays in front if and only if no remainder of at least the minimum block is put back, or every workday slot then left starts before every weekend slot left. |
| `Preference.PreferenceExactly` | `src/agent_core/planner/engine.py:175-223` | No list of tasks sends one to a weekend while a workday slot fits it, if and only if no free slot can have a remainder put back while a weekend slot and a workday slot of a later day both keep room for the shortest tasks. |
| `Preference.SpoilingTasks` | `src/agent_core/planner/engine.py:175-223` | For any other free slots, tasks that spoil the preference: they fill the slots in the way, put a remainder back and take the weekend slot. |
| `Preference.PlanPrefersWorkdays` | `src/agent_core/planner/engine.py:151-223` | That condition, over the free slots a plan starts from, is exact for every horizon and events; it is met whenever all workday slots come before all weekend slots. |
| `Preference.PreferenceLost` | `src/agent_core/planner/engine.py:151-230` | With workdays preferred and windows on Sunday and Monday morning, the plan of two hours puts the second on Sunday although Monday has room. |
| `Planner.RejectionJustified` | `src/agent_core/planner/engine.py:180-223` | A rejected task fits no slot left at the end, and no later task that needs as much is planned. |
| `Planner.EveryTaskReported` | `src/agent_core/planner/engine.py:175-230` | Planned and unplanned ids together are the ranked ids, each as often as it was ranked. |
| `Planner.ReportsInRankOrder` | `src/agent_core/planner/engine.py:175-230` | Both lists keep the rank order. |
| `Planner.ItemSlotsAreBlocks` | `src/agent_core/planner/engine.py:206-213` | The reported items with their breaks are the blocks placed, in order. |
| `Planner.FillFirst` | `src/agent_core/planner/engine.py:184-223` | A task as long as the first slot that takes it fills that slot and puts nothing back. |
| `Planner.ItemsAreBlocks` | `src/agent_core/planner/engine.py:206-213` | A reported item is the time it takes without the break. |
| `Planner.ItemIsTask` | `src/agent_core/planner/engine.py:184-213` | A planned item carries id and score of a ranked task and lasts its minutes, or the minimum block, from where that task was placed. |
| `Planner.UnplannedIsTask` | `src/agent_core/planner/engine.py:192-199` | An unplanned item carries id and score of a ranked task that was placed nowhere. |
| `PlannerEngine.Engine.PlaceTask` | `src/agent_core/planner/engine.py:184-223` | The pop, append and re-sort of the free list give the slots `PlaceOne` describes. |
| `PlannerEngine.Engine.PlaceTasks` | `src/agent_core/planner/engine.py:175-223` | The loop reports every task in one of the two lists, in rank order, with its start and end. |
| `PlannerEngine.Engine.Plan` | `src/agent_core/planner/engine.py:151-230` | The whole engine returns what `PlanOf` says: nothing exactly when a window of a planned day has times out of range, an empty plan without working slots, and otherwise the schedule of the ranked tasks, all of whose items and breaks lie within working hours. |
| `PlannerEngine.PlanInWorkingTime` | `src/agent_core/planner/engine.py:151-230` | Every instant of a planned item and of the break behind it lies within the hours of a window of its weekday, on one of the planned days. |
| `PlannerEngine.PlanWindow` | `src/agent_core/planner/engine.py:158-168` | The window reported starts with the first working instant and ends behind one, and there is none exactly without working time. |
| `PlannerEngine.SpanCoversWork` | `src/agent_core/planner/engine.py:165-168` | If working slots do not overlap, the span from the first start to the end of the last slot covers all of them, so no event inside working time is missed. |
| `PlannerEngine.PlanExact` | `src/agent_core/planner/engine.py:151-230` | At every instant, planned blocks, remaining free slots, dropped remainders and lost fragments together cover it exactly as often as working slots do, and not at all where a blocking event covers an instant of the span; for any windows, and a working slot covers exactly the instants at which a window is open. |
| `PlanSafety.PlanSafe` | `src/agent_core/planner/engine.py:151-230` | Reported items with their breaks do not overlap each other, lie inside one working slot each and meet no blocking event, if the working slots that can hold a task do not overlap and none ends after the last to start. |
| `PlanSafety.PlanSafeExactly` | `src/agent_core/planner/engine.py:151-230` | Per horizon: plans are safe for all tasks and all events if and only if that condition holds. |
| `PlanSafety.UnsafePlan` | `src/agent_core/planner/engine.py:162-168` | Where it does not hold, tasks and events whose plan is unsafe. |
| `PlanSafety.DisjointWindowsApart` | `src/agent_core/planner/engine.py:45-68` | Windows of one weekday that do not overlap meet the condition over any days. |
| `PlanSafety.CutAllLoad` | `src/agent_core/planner/engine.py:91-138` | Usable free time lies in usable working slots only, outside busy time. |
| `PlannerEngine.PlanReportsTasks` | `src/agent_core/planner/engine.py:162-163` | All ranked tasks are reported if and only if there is a working slot or nothing was ranked; without a working slot the code reports none of them. Both lists of the result are in rank order. |
| `PlannerEngine.PlanConservesTime` | `src/agent_core/planner/engine.py:175-230` | Initial free seconds equal the seconds planned with breaks, still free and dropped. |
| `PlannerEngine.PlanRejectsJustly` | `src/agent_core/planner/engine.py:180-223` | In a whole plan, what is left over is shorter than a rejected task with its break and outranks no planned task that needs as much time. |
| `PlannerEngine.OverlappingWindowsUnsafe` | `src/agent_core/planner/engine.py:165-168` | With two overlapping windows of one weekday a planned block meets a blocking event: a concrete plan over a lunch break. |
| `MarkerScan.ScanExact` | `src/agent_core/bash_runtime.py:245-290` | For every split of a stream into non-empty chunks, the scan finds the marker if and only if the whole stream holds it, emits exactly the bytes before its first occurrence and leaves exactly the bytes after it; without a marker it emits everything. |
| `MarkerScan.ScanChunkMore` | `src/agent_core/bash_runtime.py:283-287` | Holding back one byte less than the marker loses nothing and lets no marker slip through. |
| `MarkerScan.FoundEarly` | `src/agent_core/bash_runtime.py:278-281` | A first occurrence stays the first when the stream goes on. |
| `BashRuntime.FeedConcat` | `src/agent_core/bash_runtime.py:250-255` | Decoding a stream in pieces with the state carried over is decoding it at once. |
| `BashRuntime.OutputBudget.Take` | `src/agent_core/bash_runtime.py:254-269` | A text is charged in full and kept as far as the shared limit goes; after the first cut nothing more is kept. |
| `BashRuntime.MarkerReader.Step` | `src/agent_core/bash_runtime.py:271-290` | Between two waits a reader keeps its invariant and the budget's, is charged for exactly what it decoded and kept, and makes progress. |
| `BashRuntime.ReaderDecodes` | `src/agent_core/bash_runtime.py:245-290` | At any moment the kept text is a prefix of the decoded one and that a prefix of the text before the first marker; a finished reader has decoded all of it. |
| `BashRuntime.ReaderExitLine` | `src/agent_core/bash_runtime.py:228-235` | The line read back after the marker is the line that follows the first marker in the whole stream, whatever the chunks. |
| `BashRuntime.LineUpTo` | `src/agent_core/bash_runtime.py:228-235` | The line read is everything in front of the first newline, or the whole text without one. |
| `BashRuntime.SaidLine` | `src/agent_core/bash_runtime.py:207-235` | For a stream that is a text, then for the first time the marker, then a line, what is read before the marker is that text, and behind it that line. |
| `BashRuntime.StepsFewest` | `src/agent_core/bash_runtime.py:271-290` | A reader waits for the fewest chunks that complete its marker, or for all of them and the end. |
| `BashRuntime.LineStepsFewest` | `src/agent_core/bash_runtime.py:228-235` | The exit line takes the fewest further chunks that complete it, or all of them and the end. |
| `BashRuntime.ReadExitLine` | `src/agent_core/bash_runtime.py:228-235` | Reading on until a newline or the end gives the first line of tail and rest together, exactly if there is time for the waits that takes, the one for the end of the stream included. |
| `BashRuntime.ReadBoth` | `src/agent_core/bash_runtime.py:239-243` | Under every interleaving the readers take exactly the steps they need, or all there is time for; both finish if and only if that is enough; the budget is what both were charged. |
| `BashRuntime.Execute` | `src/agent_core/bash_runtime.py:185-333` | For every chunking and interleaving: a command is timed out if and only if there is time for fewer waits than both markers and the exit line take, so never with time for all chunks and ends; each text is a prefix of its stream's text before the marker; without a timeout the kept lengths add up to min(limit, total), `truncated` holds exactly when the total exceeds the limit, and if stdout is a text, the sentinel with the command's id and a line, the exit code is parsed from that whole line; a timeout gives -1. |
| `BashRuntime.StepsLeaveUnread` | `src/agent_core/bash_runtime.py:271-290` | A reader that finds its marker has waited once per chunk it read, and one that does not once more, for the end. |
| `BlobCodec.UnpackInvertsPack` | `src/macchiato_remote/protocol.py:95-125` | Packing succeeds exactly for ASCII ids and 32-bit sequence numbers; unpacking gives back id, number and payload; the frame is taken for a frame exactly when the id is hexadecimal. |
| `BlobCodec.PackInvertsUnpack` | `src/macchiato_remote/protocol.py:95-110` | Packing what was unpacked gives the same bytes, for id fields that trimming leaves alone. |
| `BlobCodec.FrameLayout` | `src/macchiato_remote/protocol.py:85-99` | A frame is the first 32 characters of the trimmed id, filled up with zeros, the sequence number in four bytes, the highest first, and the payload. |
| `BlobCodec.RecognisedExactly` | `src/macchiato_remote/protocol.py:113-125` | A message is taken for a frame if and only if it has 36 bytes and the first 32 are hexadecimal characters. |
| `BlobCodec.NormalizeStable` | `src/macchiato_remote/protocol.py:85-92` | Normalising twice changes nothing if and only if the cut id begins and ends with no blank, which holds for all hexadecimal ids. |
| `BlobReceiver.RemoteWorkerClient.BlobPushBegin` | `src/macchiato_remote/client.py:1012-1057` | A begin is refused with the first error that applies, for its size exactly above the limit asked for, which is 1 GiB by default and at most and 1 byte at least; otherwise it opens a session on an empty temporary file and drops an older session of that id with its file. |
| `BlobReceiver.RemoteWorkerClient.HandleBinary` | `src/macchiato_remote/client.py:425-470` | A frame for no session is ignored; one out of order or beyond the size ends its session with that error and removes its file; any other is appended to file, digest and counters together. |
| `BlobReceiver.RemoteWorkerClient.BlobPushEnd` | `src/macchiato_remote/client.py:1059-1125` | An end checks session, digest, size and file in this order, removes session and temporary file either way, and otherwise puts what was received at the destination, behind what it held when appending; no other file changes. |
| `BlobReceiver.RemoteWorkerClient.AbortPushSessions` | `src/macchiato_remote/client.py:387-398` | After a disconnect no session and no session's temporary file is left, and every other file is as it was. |
| `BlobReceiver.BeginOutcome` | `src/macchiato_remote/client.py:1012-1057` | The same of a begin on the worker as a value, file by file. |
| `BlobReceiver.IncomingOutcome` | `src/macchiato_remote/client.py:425-470` | The same of a frame. |
| `BlobReceiver.EndOutcome` | `src/macchiato_remote/client.py:1059-1125` | The same of an end. |
| `BlobReceiver.DisconnectOutcome` | `src/macchiato_remote/client.py:387-398` | The same of a disconnect. |
| `BlobRuns.StepTouches` | `src/macchiato_remote/client.py:387-398` | No event but a successful end changes a file that is no session's temporary file, and that end changes its destination only. |
| `BlobRuns.RunExact` | `src/macchiato_remote/client.py:425-470` | In every run of begins, frames, ends and disconnects, each open session has taken exactly the frames sent for its id since its begin, numbered from 0, digest and counter over exactly their payloads, within the declared size. |
| `BlobRuns.RunTmpsHold` | `src/macchiato_remote/client.py:1012-1125` | Throughout a run each session's temporary file is its own and holds exactly what was received, if and only if every begin uses one that no live session uses or stores to. |
| `BlobRuns.EndStores` | `src/macchiato_remote/client.py:1059-1125` | In every such run, an end stores exactly the payloads sent since the begin, in order, if and only if their digest and total size are as declared; otherwise it changes no other file than the temporary one. |
| `BlobRuns.RestartedPushFails` | `src/macchiato_remote/client.py:1034-1056` | A second begin for the same id and destination removes the file it has just opened, so that push can only end in an error. |
| `BlobRuns.PullFrames` | `src/macchiato_remote/client.py:970-988` | The pull loop packs the consecutive slices of the file under consecutive numbers, and fails exactly when the id or the last number cannot be packed. |
| `BlobRuns.TransferProgress` | `src/macchiato_remote/client.py:425-470` | Whatever subset of a transfer's frames arrives in whatever order, with any begins, frames and ends of other sessions in between, the session is live exactly while they came in order, and then holds exactly the slices so far. |
| `BlobRuns.TransferExact` | `src/macchiato_remote/client.py:970-988` | Frames cut from a file and replayed to the receiver among other traffic: the end stores if and only if every frame arrived once and in order, and what it stores is the file, behind what the destination held when appending; frames alone change no destination before. |
| `BlobRuns.BeginIsFresh` | `src/macchiato_remote/client.py:1034-1057` | An accepted begin opens a transfer of the kind the previous rows speak of if and only if its temporary file is apart from all live sessions. |
| `AskUser.NormalizeQuestions` | `src/agent_core/permissions/ask_user_registry.py:74-116` | Questions are accepted if and only if there are some and none is malformed or repeats an id, and are then in normal form with distinct ids and proper options. |
| `AskUser.ValidateDecision` | `src/agent_core/permissions/ask_user_registry.py:119-146` | The check over the indexed answers accepts exactly the decisions whose last answer to every question is free text or a listed option. |
| `AskUser.IndexAnswers` | `src/agent_core/permissions/ask_user_registry.py:125-131` | The index holds the last answer of each question and nothing else. |
| `AskUserRuns.AskUserRegistry.RegisterWait` | `src/agent_core/permissions/ask_user_registry.py:149-165` | Registration changes nothing when questions are refused, and otherwise the batch waits, with its normalised questions, their ids and option sets in order, no answers yet and its label or the default one. |
| `AskUserRuns.AskUserRegistry.ResolveAskUser` | `src/agent_core/permissions/ask_user_registry.py:193-217` | In every reachable state a decision is accepted if and only if the batch waits under the trimmed id and each question has an acceptable last answer; the batch is then gone from all six maps with exactly that decision as its one result, and a refused decision changes nothing. |
| `AskUserRuns.AskUserRegistry.SubmitFragment` | `src/agent_core/permissions/ask_user_registry.py:238-286` | In every reachable state one answer is refused for an unknown or settled batch or without a question that accepts it; otherwise it is stored, trimmed, free text before option, and either the questions still open are listed in order or the batch is settled with the stored answers in order. |
| `AskUserRuns.AskUserRegistry.CancelWait` | `src/agent_core/permissions/ask_user_registry.py:289-300` | Cancelling succeeds exactly for a batch that waits, settles it as cancelled, and forgets any batch. |
| `AskUserRuns.ResolveOutcome` | `src/agent_core/permissions/ask_user_registry.py:193-217` | The same of a whole decision on the registry as a value. |
| `AskUserRuns.SubmitOutcome` | `src/agent_core/permissions/ask_user_registry.py:238-286` | The same of one answer. |
| `AskUserRuns.CancelOutcome` | `src/agent_core/permissions/ask_user_registry.py:289-300` | The same of a cancellation. |
| `AskUserRuns.RegisterOutcome` | `src/agent_core/permissions/ask_user_registry.py:149-165` | The same of a registration. |
| `AskUserRuns.DecisionComplete` | `src/agent_core/permissions/ask_user_registry.py:119-146` | The check by ids and option sets accepts exactly the decisions in which every registered question has, as its last answer, free text that is not blank or a listed option. |
| `AskUserRuns.FragmentNeverRefusedWhole` | `src/agent_core/permissions/ask_user_registry.py:273-276` | In every reachable state, answers accepted one by one pass the whole-batch check: the failure branch is dead. |
| `AskUserRuns.StepKeeps` | `src/agent_core/permissions/ask_user_registry.py:149-300` | Every operation keeps the six maps on the same keys and each batch's entries consistent with its questions. |
| `AskUserRuns.RunKeeps` | `src/agent_core/permissions/ask_user_registry.py:149-300` | In every reachable state the maps agree, each batch was settled at most once, and a settled decision answers every question. |
| `AskUserRuns.RunHoldsLast` | `src/agent_core/permissions/ask_user_registry.py:238-286` | A batch still open holds, for each question, the last acceptable answer sent since its registration. |
| `AskUserRuns.FragmentsSettleWithLast` | `src/agent_core/permissions/ask_user_registry.py:262-286` | The fragment that completes a batch settles it, once, with one answer per question in the questions' order, each the last acceptable one sent in the run. |
| `McpPool.SharedMCPPool.AcquireFor` | `src/agent_core/mcp/pool.py:76-138` | Acquiring succeeds if and only if the key is live or the server comes up and lists its tools; the count of its key is then one more, or 1; an opening that fails leaves no entry and no open connection. |
| `McpPool.SharedMCPPool.ReleaseKey` | `src/agent_core/mcp/pool.py:140-153` | Releasing takes one off the count of a live key, closes its connection at the last one, and touches no other entry. |
| `McpPool.AcquireOutcome` | `src/agent_core/mcp/pool.py:76-138` | The same of acquiring on the pool as a value. |
| `McpPool.ReleaseOutcome` | `src/agent_core/mcp/pool.py:140-153` | The same of releasing. |
| `McpPool.MCPClientManager.ConnectAll` | `src/agent_core/mcp/client.py:68-105` | Connecting takes one reference per pooled server that comes up, in order; if something raises at a server, those before it stay held and the manager does not count as connected. |
| `McpPool.MCPClientManager.ConnectNamed` | `src/agent_core/mcp/client.py:107-131` | Connecting one more server takes its reference and marks the manager connected, and does nothing for a server already there. |
| `McpPool.MCPClientManager.Disconnect` | `src/agent_core/mcp/client.py:133-147` | Dropping a server drops its name, one hold of its key and one reference together. |
| `McpPool.MCPClientManager.CloseAll` | `src/agent_core/mcp/client.py:285-301` | Closing a connected manager releases every held key and leaves it as it was built; closing one that is not connected does nothing. |
| `McpPool.ConnectOutcome` | `src/agent_core/mcp/client.py:68-105` | Connecting goes through the servers reached, one after the other, each acquired and, if that works, held under its name; the manager counts as connected exactly if it reached them all. |
| `McpPool.ConnectServerOutcome` | `src/agent_core/mcp/client.py:107-131` | The same of one more server, unless its name is listed. |
| `McpPool.DisconnectOutcome` | `src/agent_core/mcp/client.py:133-147` | A dropped server loses its name and, with its key, one hold and one reference. |
| `McpPool.CloseOutcome` | `src/agent_core/mcp/client.py:285-301` | A closed manager is as new, and each key it held was released once for each hold. |
| `McpPool.AcquireProper` | `src/agent_core/mcp/pool.py:76-138` | Acquiring keeps every opened connection live or closed once, and changes the count of its own key only, by one. |
| `McpPool.ReleaseProper` | `src/agent_core/mcp/pool.py:140-153` | Releasing keeps the same and takes one from its key only. |
| `McpPool.ApplyKeeps` | `src/agent_core/mcp/client.py:68-147` | Each whole operation of a manager keeps the pool's count of every key equal to what the others hold plus what this manager holds. |
| `McpPool.RunKeeps` | `src/agent_core/mcp/client.py:68-179` | Over any interleaving of operations by many managers, interrupted connects among them, each count equals the number of holds in all managers' lists, an entry exists exactly when that is positive, and each connection is closed at most once. |
| `McpPool.StartIsProper` | `src/agent_core/mcp/pool.py:72-74` | The invariant holds at the start, for any number of managers. |
| `McpPool.AllClosedInTheEnd` | `src/agent_core/mcp/client.py:285-301` | In every reachable state all connections ever opened have been closed, once each, if and only if no manager has release keys. |
| `McpPool.CloseGivesBack` | `src/agent_core/mcp/client.py:285-301` | Closing gives back all a manager holds if and only if it is connected or holds nothing. |
| `McpPool.UninterruptedAllClosed` | `src/agent_core/mcp/client.py:68-147` | In runs whose connects all get through their servers, everything is closed once no manager is connected. |
| `McpPool.InterruptedLeaks` | `src/agent_core/mcp/client.py:285-288` | A connect interrupted after its first server, and then a close, leave a connection open: a concrete run. |
| `WorkingSet.ToolWorkingSetManager.Pin` | `src/agent_core/orchestrator/working_set.py:43-53` | A name that is not blank is pinned, trimmed, besides those pinned before, and leaves the working set, in which the others keep their order; duplicates, pinned names and overflow stay excluded. |
| `WorkingSet.ToolWorkingSetManager.Unpin` | `src/agent_core/orchestrator/working_set.py:55-61` | Unpinning takes the trimmed name, and no other, off the pinned ones and leaves the working set alone, so the name comes back only when it is used. |
| `WorkingSet.ToolWorkingSetManager.AddToWorkingSet` | `src/agent_core/orchestrator/working_set.py:63-74` | The insert, move and evict loops compute `AfterBatch`, and the set stays duplicate-free, unpinned and within its size. |
| `WorkingSet.ToolWorkingSetManager.BuildSnapshot` | `src/agent_core/orchestrator/working_set.py:76-100` | All recent names are shown, since none is pinned or beyond the size; names the registry lacks go exactly when its version changed, and the others keep their order. |
| `WorkingSet.RecentByLastUse` | `src/agent_core/orchestrator/working_set.py:63-72` | Moving each used name to the end lists exactly the used names, once each, by their last position in the history. |
| `WorkingSet.EvictionCommutes` | `src/agent_core/orchestrator/working_set.py:63-74` | Evicting before further uses changes nothing about the newest names afterwards. |
| `WorkingSet.BatchesKeepMostRecent` | `src/agent_core/orchestrator/working_set.py:63-74` | After any batches the set is the most recently used distinct unpinned names of the joined history, so evicting once a batch is evicting after every name. |
| `WorkingSet.RunsKeepMostRecent` | `src/agent_core/orchestrator/working_set.py:43-74` | With pins and unpins in between, the set is always the recent end of what a set without a size would hold, and short of its size by no more than the names pins took out since it was last full. |
| `WorkingSet.RefillRestores` | `src/agent_core/orchestrator/working_set.py:63-74` | A batch of at least as many different usable names as the size makes it exactly the most recent ones again, whatever was pinned before. |
| `MergeTree.MergeMoveTree` | `src/agent_core/agent/workspace_paths.py:354-392` | In whatever order children are visited, both trees end as `MergedSrc` and `MergedDst` say, and the two lists hold exactly the moved and the skipped paths of all levels. |
| `MergeTree.SourceFilesKept` | `src/agent_core/agent/workspace_paths.py:354-392` | A source file whose way is free is afterwards in the destination, with its content, and no longer in the source; one whose way is blocked stays. |
| `MergeTree.DestinationFilesKept` | `src/agent_core/agent/workspace_paths.py:354-392` | No destination file changes. |
| `MergeTree.NothingInvented` | `src/agent_core/agent/workspace_paths.py:354-392` | Every file afterwards is one that was there before, at the same relative path. |
| `MergeTree.EveryFileReported` | `src/agent_core/agent/workspace_paths.py:372-386` | A source file lies at or below a skipped path exactly when its way is blocked, and at or below a moved path exactly when it is not. |
| `MergeTree.SecondRunMovesNothing` | `src/agent_core/agent/workspace_paths.py:354-392` | A second run changes neither tree. |

## Left out

- AgentTurn.AgentCore.RunLoop: exceptions are modelled at the model call, the kernel's compression, a tool call and the recording of a final answer; one raised at a logging, tracing or goal-check database call takes the same rollback and is not a separate case.
- AgentTurn.AgentCore.CheckWindow: the kernel's compression is an arbitrary rewrite of the list; what it cuts is stated by `TurnPairing.CompressionCut` alone.
- AgentTurn.AgentCore.Assemble: multimodal items and hydration of image references, which `assemble` adds behind the stripped list, are not modelled.
- AgentTurn.AgentCore.RunTools: nobody else appends during a turn in the model, while `src/system/automation/core_gateway.py:1068` appends a user message without a session lock in sight; `TurnPairing.ForeignMessageRepaired` and `TurnPairing.ForeignMessageRequest` state what the next request makes of one that falls between a caller's results.
- AgentTurn.AgentCore.PrepareTurn: memory recall, media folding and the time prefix of the user's text are not modelled.
- AgentTurn.AgentCore.RunLoop: after a rollback the contents of messages already shrunk in place are arbitrary, because the list is copied but its messages are shared.
- Clearing.ScrubOversizedToolResults: contents are texts; the path named in a placeholder comes from a function of the content, and serialising other contents as JSON is left out.
- TokenBudget.EstimateTokens: the two floating-point quotients are taken as exact fractions; their sum rounds to another integer only for texts far beyond any real size.
- The size bound of a whole truncated tool result (`_build_truncated_result`): its last fallback has none, and it depends on JSON serialisation.
- FreeTime.BuildWorkingSlots: windows are given as hours and minutes; splitting "HH:MM" and its error texts are not modelled.
- Ranking of tasks by score and conversion to local time: the ranked list and naive local times are inputs of the planner.
- BashRuntime.Execute: time is counted in waits for data; UTF-8 decoding with replacement is any decoder that takes its input byte by byte; parsing the exit code is a function of its line; starting, killing and snapshotting the shell are left out.
- BashRuntime.Execute: what stderr says after its marker is discarded by the code and may reach the next command; no isolation between commands is stated.
- BlobRuns.EndStores: requires that each begin uses a temporary file no live session uses or stores to, which `BlobRuns.RunTmpsHold` shows to be exactly what the temporary files need; `BlobRuns.RestartedPushFails` shows what a begin for the same file leads to.
- BlobRuns.TransferProgress: requires the same of the begins in the traffic, since a session whose temporary file another one opens or replaces loses what it received.
- BlobRuns.TransferExact: requires the same of the begins in the traffic.
- BlobReceiver.RemoteWorkerClient.BlobPushEnd: file operations succeed except for a missing temporary file, files are values under their names, and the requested digest is given trimmed and in lower case.
- BlobReceiver.RemoteWorkerClient.BlobPushBegin: path resolution is an optional destination, creating directories is left out.
- AskUserRuns.AskUserRegistry.RegisterWait: the fresh UUID of a batch is an input, never used before in a run; snapshots for clients, notification hooks and IPC parsing are left out.
- McpPool.RunKeeps: a connect may raise at any server, but not inside the opening of a connection, and a close does not stop half-way; the tasks and stacks of exclusive servers, proxy tools and calls are left out; each operation is a whole step.
- WorkingSet.RunsKeepMostRecent: names a new registry version drops between the operations are covered by `BuildSnapshot` only.
- MergeTree.MergeMoveTree: symbolic links, failing file operations, a missing source directory and the skip set of the outer call are left out.
- Model providers, prompts, memory search, history database, front ends, daemon wiring, WebSocket and MCP transport: input and output around the modelled parts.
- Command security rules, path grants, token registry and user provisioning: string heuristics and policy.
- Job manager, goal store, checkpoints and configuration merging: mostly facts about single branches.
