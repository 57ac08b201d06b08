# Verification of xmc

xmc is a messaging command line tool with an AI shell. These Dafny modules model the parts of
it that hold algorithms, protocols and formats, and prove what they promise. The broker
libraries, the network and the terminal are outside: what they answer is a parameter, a script
of answers or a nondeterministic step.

| module | models |
|---|---|
| `SidebarPlan`, `SidebarView` | the space allocator of the shell's sidebar, scrolling and line counts |
| `Tui`, `TuiRuns`, `TuiKeys`, `TuiModel` | sidebar and background-process state: handlers as functions, laws over all runs, each key told by the fields it leaves behind, handlers as methods of a class |
| `Reconnect` | the reconnecting adapter, as interleaved steps of any number of calls and as an object |
| `Pipeline` | splitting a shell line, grouping external stages, re-joining them for `sh -c` |
| `SoftWrap` | the soft wrap of the input area |
| `Consume`, `NatsBrowse` | the read loop and the NATS browse cursor |
| `RedisTopic` | the cursor of an independent Redis subscriber |
| `Relay` | `forward` and `move` |
| `RabbitAddress` | RabbitMQ addresses |
| `Prune`, `Base64`, `Utf8`, `Ndjson` | the NDJSON record format |
| `Template` | output templates |
| `MqttMatch` | the MQTT topic filter matcher |
| `CappedBuffer`, `RateLimiter` | the capped output buffer and the rate limiter |
| `Text`, `Seqs`, `Wrappers` | helpers |

Loops and objects of the source are loops and classes here. Their contracts equate what they
compute, or the new state, with a function or with a description that does not mention the
loop; the laws are then proved of that function or description. Where the description leaves
no choice there is a lemma that says so (`PlanIsUnique`, `RunIsUnique`, `RelayIsUnique`,
`GroupingIsUnique`). What the functions and descriptions are made of is in turn tied to fields,
characters and lines by laws that do not use them (`FloorIsLeast`, `ClosedIffWord`,
`OutcomeHasCause`, `DeliveredFields`, `PressIsTold`).

The code is followed where it differs from its own words:

- The collapse order goes from the windows nearest the focus outward, although the comment at
  `cmd/aituisidebar.go:134` says it starts from the farthest (`CollapseOrder`).
- The hint above a scrolled list names one row fewer than it hides (`HintCounts`).
- While a filter is typed, the sidebar is one line too long exactly when the windows already
  fill its height (`FilterEntryOverflows`), which happens (`FilterEntryOverflowOccurs`).
- Re-joining an external block and splitting it again loses its last stage exactly when that
  stage is empty (`ExternalBlockResplits`), which happens (`EmptyLastStageOccurs`).
- The attempt outside the mutex may use an adapter that another call has already closed
  (`OptimisticAttemptMayBeStale`). It is open exactly as long as no call takes a closing step
  after the mutex was let go (`OptimisticAttemptOpenIff`); attempts under the mutex always are.
- With runes wider than one cell a wrapped row may exceed the width (`WideRuneExceeds`), by no
  more than the excess of the widest rune (`RowsAlmostFit`). At one width it happens exactly
  when a stretch cut inside a word is too wide (`RowsFitIff`); with runes of one and two cells
  it happens at no width exactly when no word has a wide rune right after a narrow one
  (`TwoCellRunesFitIff`).
- Toggling the tree is said at `cmd/aikeys.go:594-597` to follow the selected node. It follows
  the node's name: the node stays selected exactly when no row before it has that name
  (`ToggleKeepsNodeIff`), and another node's child can take its place (`ToggleCanLoseNode`).
- `forward` keeps the message id and key, `move` drops both; a negative count is no limit to
  `forward` and moves nothing in `move` (`NegativeCounts`).
- A routing key that starts with a slash is taken for an address of its own
  (`ExchangeRoundTrip`).

## Model

| member | source | states |
|---|---|---|
| SidebarPlan.MakePlan | cmd/aituisidebar.go:40-202 | the plan is good: natural heights if they fit; else bodies between floor and natural height that add up to exactly `height`, the focused window served first; else the lowest-ranked windows collapsed, enough and not one too many |
| SidebarPlan.ShareSurplus | cmd/aituisidebar.go:104-131 | bodies lie between floor and natural height, nobody gets more than its floor while an earlier-served window still wants rows, and the costs add up to exactly `height` |
| SidebarPlan.ServeFocus | cmd/aituisidebar.go:107-119 | after the focused window has taken its share, costs and remaining surplus add up to `height`, and surplus is left only if the focused window has all it wants |
| SidebarPlan.CollapseOrder | cmd/aituisidebar.go:135-154 | every window but the focused one (every window when none is focused) exactly once, sorted by distance from the focus, below before above, or from the bottom up |
| SidebarPlan.OutwardFrom | cmd/aituisidebar.go:142-153 | the two interleaved scans visit all other windows once, in strictly increasing rank |
| SidebarPlan.CollapseUntilFit | cmd/aituisidebar.go:156-191 | the collapsed windows are the lowest-ranked ones, enough to fit or all there are, and without the last of them the rest would not fit; the surplus is what the floors leave over |
| SidebarPlan.AutoCollapse | cmd/aituisidebar.go:132-201 | stage 3 gives such a collapse, drawn windows have their floors, and only the focused one gets what is left |
| SidebarPlan.Measure | cmd/aituisidebar.go:79-86 | the running total is the line cost of the windows under the given bodies and hidden flags |
| SidebarPlan.FitsIffMinimumFits | cmd/aituisidebar.go:132-201 | a plan fits exactly when collapsing every window but the focused one would fit |
| SidebarPlan.BodyWithinBounds | cmd/aituisidebar.go:67-131 | every drawn window gets at least min(3, natural) rows and never more than its natural rows |
| SidebarPlan.FocusedGetsMost | cmd/aituisidebar.go:107-200 | the focused window is never collapsed by the planner and gets all it wants, or everything left when the other drawn windows are at their floors |
| SidebarPlan.PlanIsUnique | cmd/aituisidebar.go:78-202 | any two good plans draw the same windows with the same bodies, so the declarative description determines the algorithm's result |
| SidebarPlan.SurplusGoesDown | cmd/aituisidebar.go:98-131 | a drawn window has at least three rows or its whole list; more than three only after the focused window and those above have all they want; no line is left over that a window could use |
| SidebarPlan.RankMeans | cmd/aituisidebar.go:134-155 | of two windows the one nearer to the focus is collapsed first, the lower of two as near, and the lower one without a focus |
| SidebarView.FloorIsLeast | cmd/aituisidebar.go:67-72 | the planner's floor is the least number of lines that show the whole list or scroll it to every selection |
| SidebarView.DrawnBodyShows | cmd/aituisidebar.go:67-131 | every drawn window can show its whole list or scroll it to every selection |
| SidebarView.NoneCollapsedIff | cmd/aituisidebar.go:78-135 | no window is collapsed by the planner, and all fit, if and only if some bodies that show every list fit the height |
| SidebarView.CollapsesNoMore | cmd/aituisidebar.go:132-191 | if such bodies fit once some windows are collapsed in the collapse order, the planner collapses no others |
| SidebarView.RenderSidebar | cmd/aituisidebar.go:20-229 | the column is drawn from a good plan for the natural heights, and each junction row is the place of that window's underline, or -1 when it is hidden |
| SidebarView.WriteBody | cmd/aituisidebar.go:365-433 | the loop draws the upper hint, the rows of the computed slice and the lower hint, in that order |
| SidebarView.WriteSection | cmd/aituisidebar.go:262-442 | title only when hidden; a one-line message, or the scrolled list and the filter entry line |
| SidebarView.CountNaturalRows | cmd/aituisidebar.go:233-258 | the rows counted for the planner: one for a message, otherwise items with their children in tree view |
| SidebarView.NaturalHeights | cmd/aituisidebar.go:46-50 | one natural height per window |
| SidebarView.WriteParts | cmd/aituisidebar.go:207-214 | one section per window under its allotted body |
| SidebarView.StackParts | cmd/aituisidebar.go:204-220 | sections stacked with a margin between neighbours; junction entries are where underlines land |
| SidebarView.Pad | cmd/aituisidebar.go:222-226 | empty lines up to the height, and none when it is passed already |
| SidebarView.ThreeLinesScroll | cmd/aituisidebar.go:365-433 | with at least three lines, any selection of any longer list is drawn, and rows and hints fill the lines exactly |
| SidebarView.FloorOfThreeIsExact | cmd/aituisidebar.go:67-72 | every selection of a longer list scrolls properly if and only if there are at least three lines |
| SidebarView.HintCounts | cmd/aituisidebar.go:367-433 | there is an upper hint exactly when the selection is past the middle of the lines, and it names one row fewer than it hides; a lower hint names exactly the rows it hides |
| SidebarView.LineOfBody | cmd/aituisidebar.go:365-433 | a body line by line: consecutive rows with the selected one in the middle, unless an end of the list is near, and a hint in place of the first or last row when the list goes on there |
| SidebarView.SectionTells | cmd/aituisidebar.go:262-442 | which sections say that they are loading, failed to list or have nothing, and which takes a filter |
| SidebarView.ColumnHoldsSections | cmd/aituisidebar.go:204-228 | the column holds the sections in order, one margin after each but the last, and nothing but padding after that |
| SidebarView.FocusedIsDrawn | cmd/aituisidebar.go:38-200 | the planner never hides the window that has the focus |
| SidebarView.NaturalIsListLength | cmd/aituisidebar.go:233-258 | the count used for planning equals the number of rows drawn and selected from |
| SidebarView.SelectionsExist | cmd/aikeys.go:1049-1070 | in every state that satisfies the run invariant, each list that is drawn has its selected row |
| SidebarView.SectionLength | cmd/aituisidebar.go:262-442 | under a good plan a section takes exactly its planned lines, and one more for a filter entry, and shows the selected row |
| SidebarView.RenderedLength | cmd/aituisidebar.go:204-228 | the stack is exactly as long as what its windows fill, plus one line for a filter being typed, and never longer than the plan's cost plus that line |
| SidebarView.WholeSidebar | cmd/aituisidebar.go:20-229 | after any run, at any height: if collapsing all but the focused window fits and no filter is typed, the rendering is exactly `height` lines; every junction row is its window's underline and every drawn list shows its selected row |
| SidebarView.FilterEntryOverflows | cmd/aituisidebar.go:435-439 | while a filter is typed the rendering is one line too long if and only if the windows already fill the height, and has the height otherwise |
| SidebarView.FilterEntryOverflowOccurs | cmd/aituisidebar.go:435-439 | it does happen: from the initial state, one listed object and a slash make four lines at a height of three |
| TuiRuns.StepKeepsInv | cmd/aiproc.go:214-511 | every event (keys, launches, listings, cancel and done messages, finishing goroutines) keeps selections in range, the Processes window last and present exactly when a process exists, process view active exactly while that window has the focus, ids increasing, and every process reachable |
| TuiRuns.RunKeepsInv | cmd/aiproc.go:214-511 | so does every sequence of events |
| TuiRuns.RunsHaveInv | cmd/aitui.go:418-511 | and it holds from the initial state on |
| TuiRuns.NoOrphan | cmd/aiproc.go:268-345 | in every reachable state each launched process is listed, or its context was cancelled, or its cancel function is still to arrive |
| TuiRuns.DeletedGetsCancelled | cmd/aiproc.go:268-345 | a process that left the list early is cancelled once its goroutine has sent its cancel function and that has arrived |
| TuiRuns.DeliverCancelKeepsLists | cmd/aiproc.go:335-345 | an arriving cancel function lands on its own process or is called, and no process becomes unreachable |
| TuiRuns.LaunchKeepsLists | cmd/aiproc.go:268-331 | a launch takes a new id, larger than all before, and leaves the others reachable |
| TuiRuns.DeleteKeepsLists | cmd/aiproc.go:414-428 | deleting the selected process loses none: it is cancelled, or its cancel function is still to come |
| TuiRuns.PurgeKeepsLists | cmd/aiproc.go:438-451 | purging takes off finished processes only, whose contexts have ended |
| TuiRuns.DeleteAllKeepsLists | cmd/aiproc.go:453-460 | deleting all cancels each process, or its cancel function is still to come |
| TuiRuns.EnteringSavesPrompt | cmd/aiproc.go:471-490 | whatever makes process view active saves the prompt of that moment |
| TuiRuns.SavedThroughout | cmd/aiproc.go:471-522 | while process view stays active, no event changes the saved prompt |
| TuiRuns.LeavingRestoresPrompt | cmd/aiproc.go:471-511 | entering process view, any events in it, and leaving it bring back the mode, text and history position from before |
| TuiRuns.LeavingUndoesEntering | cmd/aiproc.go:469-511 | leaving process view undoes entering it, and entering or leaving twice is doing it once |
| TuiRuns.StepKeepsSettled | cmd/aiproc.go:513-522 | every event but an outside change of the prompt keeps it the saved prompt with the selected process's command as its text, while the Processes window is shown |
| TuiRuns.RunKeepsSettled | cmd/aiproc.go:469-522 | so does every sequence of such events: the prompt never names a process other than the selected one |
| TuiRuns.ProcKeyKeepsSaved | cmd/aiproc.go:366-465 | each key of the Processes window keeps the saved prompt, or closes the view and makes it the prompt |
| TuiRuns.RowCount | cmd/aikeys.go:1137-1153 | the flattened row list is as long as counting items and children says |
| TuiRuns.RowCountIgnoresOrder | cmd/aituisidebar.go:485-502 | the number of rows depends on which nodes there are, not on their order |
| TuiRuns.SortKeepsRowCount | cmd/aikeys.go:1306-1317 | changing the sort mode leaves as many rows to select from |
| TuiRuns.ToggleKeepsSelection | cmd/aikeys.go:592-602 | toggling the tree leaves the selection on an existing row |
| TuiRuns.FirstNamedIsFirst | cmd/aikeys.go:1155-1167 | the search finds the first row of that name, and row zero if there is none |
| TuiRuns.ToggleFollowsName | cmd/aikeys.go:592-602 | a selected name that still has a row after the toggle is still the selected name |
| TuiRuns.ToggleKeepsNodeIff | cmd/aikeys.go:592-602 | a selected top-level node stays selected if and only if no row before its new one has its name |
| TuiRuns.ToggleCanLoseNode | cmd/aikeys.go:592-602 | with another node's child of the same name before it, showing the tree selects that child instead |
| TuiRuns.ListingKeepsPanes | cmd/aikeys.go:1049-1071 | a listing of any shape leaves every selection in range and the Processes window alone |
| TuiRuns.CycleFocusFrame | cmd/aikeys.go:1089-1121 | moving the focus keeps the pane invariant and touches neither windows nor processes |
| TuiRuns.CycleFocusCases | cmd/aikeys.go:1089-1121 | moving the focus out of the Processes window brings the saved prompt back, into it saves the prompt and shows the selected command, and anything else moves the focus only |
| TuiRuns.FocusThereAndBack | cmd/aikeys.go:1089-1121 | moving the focus on and back restores focus, prompt and process view, into the Processes window and out of it alike |
| TuiRuns.StartKeepsPanes | cmd/aiproc.go:216-280 | a launch keeps the pane invariant: the Processes window is there afterwards, and last |
| TuiRuns.ClosingKeepsPanes | cmd/aiproc.go:229-244 | emptying the list removes the Processes window and the view of it, wherever the focus is, and keeps the pane invariant |
| TuiRuns.RemovalKeepsPanes | cmd/aiproc.go:246-451 | shrinking the list in any way keeps the pane invariant: the selected process exists, or the window is gone |
| TuiRuns.ProcKeyKeepsPanes | cmd/aiproc.go:366-465 | every key of the Processes window keeps the pane invariant |
| TuiRuns.PaneKeyKeepsPanes | cmd/aikeys.go:518-616 | every key of an object window keeps the pane invariant |
| TuiRuns.MoveSelKeepsPanes | cmd/aikeys.go:1169-1180 | moving the selection keeps it on a row |
| TuiModel.FilterNodes | cmd/aituisidebar.go:474-484 | the loop keeps exactly the matching nodes, in order |
| TuiKeys.MatchingAre | cmd/aituisidebar.go:474-484 | a filter keeps each node that matches as often as it is there, and no other |
| TuiKeys.MatchingInOrder | cmd/aituisidebar.go:474-484 | and keeps their order |
| TuiKeys.ItemsAre | cmd/aituisidebar.go:468-503 | a window shows the nodes of its last listing that match its filter, each as often as it was listed, and nothing else |
| TuiKeys.ChildRowShowsChild | cmd/aikeys.go:1131-1153 | in tree view the children of a node have the rows right after it, in their order |
| TuiKeys.PressIsTold | cmd/aikeys.go:104-232 | what every key does wherever the focus is, told by the fields it leaves behind |
| TuiKeys.ChatKeyIsTold | cmd/aikeys.go:123-231 | Ctrl-C calls every stored cancel function and no other, Escape changes the mode and keeps the text, Tab goes to the next pane |
| TuiKeys.SubmitIsTold | cmd/aikeys.go:153-210 | a line that quits calls every stored cancel function, a background line adds exactly that process, a rejected line changes nothing, any other clears the prompt only |
| TuiKeys.QuittingLeavesNone | cmd/aiproc.go:556-563 | in whatever way the shell quits, after any run, each process ever launched is cancelled or its cancel function is still to arrive |
| TuiKeys.ProcKeyIsTold | cmd/aiproc.go:366-465 | the arrows select the neighbour and show its command; `k` cancels the selected process and keeps the list, `d` takes it off besides, `p` leaves exactly the unfinished ones in order, `D` cancels all and leaves none |
| TuiKeys.PaneKeyIsTold | cmd/aikeys.go:518-616 | the selection moves by one row and stops at the ends, Enter puts the selected name into the prompt, letters sort, reload, filter and show the tree |
| TuiKeys.FilterKeyIsTold | cmd/aikeys.go:618-646 | typing adds to the filter, Backspace takes off its last character, Enter keeps it and Escape drops it |
| TuiKeys.SortIsTold | cmd/aikeys.go:1306-1317 | the sort mode goes round through the name and the metrics, and selects the first row |
| TuiKeys.ListingIsTold | cmd/aikeys.go:1049-1071 | a listing gives each object window its nodes and its error, and moves a selection only if its row is gone, to the last row |
| TuiKeys.CancelIsTold | cmd/aiproc.go:335-345 | a cancel function is stored with the process it comes for and only there, and is called when there is none |
| TuiKeys.DoneIsTold | cmd/aiproc.go:347-362 | the end of a process marks that process done and no other |
| TuiKeys.LifeOfProcess | cmd/aiproc.go:268-362 | a launched process left to itself has its cancel function stored, its context ended and is marked done in the end, leaves no message behind, and changes no other process |
| TuiModel.FilteredSortedNodes | cmd/aituisidebar.go:468-503 | a window's nodes, filtered and then sorted |
| TuiModel.SidebarRows | cmd/aikeys.go:1131-1153 | top-level rows, each followed by its children in tree view |
| TuiModel.IndexOfNamed | cmd/aikeys.go:1155-1167 | the first row with the name, or zero |
| TuiModel.RefreshWindow | cmd/aikeys.go:1056-1069 | a window takes over its listing and error if there are any, and its selection is clamped |
| TuiModel.Model.constructor | cmd/aitui.go:497-511 | the initial state, in which the class invariant holds: no process, no Processes window, focus on the chat |
| TuiModel.Model.CycleFocus | cmd/aikeys.go:1089-1121 | keeps the class invariant, moves the focus whenever there is a window, changes nothing else but the prompt, and moving back undoes it, prompt included |
| TuiModel.Model.StartBackgroundProcess | cmd/aiproc.go:268-280 | keeps the class invariant and puts exactly one new process, with the next id, at the end of the list |
| TuiModel.Model.FindProcess | cmd/aiproc.go:335-341 | the place of the first process with the id, or the list's length |
| TuiModel.Model.HandleProcCancel | cmd/aiproc.go:335-345 | the function is stored with the process of that id and no other, and the class invariant is kept whenever it is that process's own |
| TuiModel.Model.HandleProcDone | cmd/aiproc.go:347-362 | the process of that id is marked done and no other, and the class invariant is kept |
| TuiModel.Model.KillAllProcs | cmd/aiproc.go:556-563 | exactly the stored cancel functions are called, the list stays, and the class invariant is kept |
| TuiModel.Model.PurgeFinished | cmd/aiproc.go:438-451 | the unfinished processes stay, in order; window, selection and prompt follow |
| TuiModel.Model.HandleKeyProcessPane | cmd/aiproc.go:366-465 | every key of the Processes window keeps the class invariant, keeps the saved prompt or brings it back on leaving, never adds a process, and cancels, removes or selects exactly what it should |
| TuiModel.Model.MoveSel | cmd/aikeys.go:1169-1180 | wherever the window has rows, the selection ends on one of them |
| TuiModel.Model.ToggleTreeView | cmd/aikeys.go:592-602 | a selected name that still has a row after the toggle is still the selected name |
| TuiModel.Model.HandleKeyPane | cmd/aikeys.go:518-616 | every key of an object window keeps the class invariant and leaves the processes alone |
| TuiModel.Model.HandleKeyFilter | cmd/aikeys.go:618-646 | every key while a filter is typed keeps the class invariant, focus, prompt and processes, and changes the focused window at most, to its first row |
| TuiModel.Model.HandleKeyChat | cmd/aikeys.go:123-231 | the keys of the chat keep the class invariant; Ctrl-C or a line that quits calls every stored cancel function, a background line adds its process, Escape switches the mode |
| TuiModel.Model.HandleKeyIdle | cmd/aikeys.go:104-232 | every key keeps the class invariant, keeps or brings back the saved prompt when process view is active, and saves the prompt of that moment when it becomes active |
| TuiModel.Model.HandleObjectsDone | cmd/aikeys.go:1049-1071 | every window but Processes takes over its share of a listing of any shape, and the class invariant is kept |
| Reconnect.AdaptersAccounted | cmd/reconnect.go:129-169 | in every interleaving each adapter made is the current one or was closed exactly once, so made minus closed is one exactly when there is a current one |
| Reconnect.NothingAfterClose | cmd/reconnect.go:158-169 | once a Close has returned, all adapters are closed, none is made and none is closed again |
| Reconnect.LockedAttemptsAreOpen | cmd/reconnect.go:173-314 | an attempt under the mutex (a retry or a browse) always uses an adapter that is not closed |
| Reconnect.SuccessIsLastAttempt | cmd/reconnect.go:173-314 | an ended call's attempts fit its outcome: success exactly when there was one successful attempt, the last, after lost connections only; and no more attempts than the policy grants plus one |
| Reconnect.OutcomeHasCause | cmd/reconnect.go:129-314 | in every interleaving, the step that ends a call has the cause of its outcome: unsupported an adapter that cannot browse, closed a closed wrapper, a factory error a wrapper without adapter, a context error a context that is over, any other result the attempt that gave it |
| Reconnect.EndsForCause | cmd/reconnect.go:129-314 | a step ends a call in some way if and only if there is the cause for it |
| Reconnect.GoesOnAfter | cmd/reconnect.go:171-314 | a lost connection, or an adapter that cannot be made, leads on to the retry loop; each turn spends one retry; a result is logged by the step that meets it |
| Reconnect.OptimisticAttemptOpenIff | cmd/reconnect.go:220-232 | from the step that lets go of the mutex, the adapter of the unlocked attempt is open, in every interleaving, if and only if no call has taken a closing step since |
| Reconnect.AttemptIsOpenIffCurrent | cmd/reconnect.go:220-232 | at any moment the adapter of an unlocked attempt is open if and only if it is still the current one |
| Reconnect.OptimisticAttemptMayBeStale | cmd/reconnect.go:220-232 | closing steps do come in between: an interleaving of two calls leaves one about to use an adapter the other has closed |
| Reconnect.OnlyHolderChangesShared | cmd/reconnect.go:117-127 | no step of a call without the mutex changes the wrapper's fields |
| Reconnect.StepKeepsInv | cmd/reconnect.go:129-314 | every step of every call keeps the account of adapters, mutual exclusion and each call's own promise |
| Reconnect.RunKeepsInv | cmd/reconnect.go:129-314 | so does every schedule; and after Close the fields are fixed |
| Reconnect.ProtocolRunsLoop | cmd/reconnect.go:171-210 | a call left alone with the mutex does in the protocol exactly what the retry loop computes |
| Reconnect.OperationLaws | cmd/reconnect.go:220-295 | a call as a whole keeps the account, stays within its retries, and succeeds exactly when its last attempt does |
| Reconnect.RetryLoopAccounts | cmd/reconnect.go:171-210 | the loop keeps the account of adapters and spends at most its budget |
| Reconnect.RetryLoopLog | cmd/reconnect.go:204-209 | the loop returns a result only after lost connections, and never returns a lost connection |
| Reconnect.LoopOutcome | cmd/reconnect.go:171-210 | what the retry loop returns and logs, told by the first turn that ends it |
| Reconnect.LoopEnds | cmd/reconnect.go:171-210 | the loop comes to an end within one turn more than the policy grants retries |
| Reconnect.OperationOutcome | cmd/reconnect.go:220-239 | a closed wrapper or a failed factory gives its error without an attempt; a first attempt that keeps its connection is the only one; a lost one leaves the outcome to the loop |
| Reconnect.ReconnectingAdapter.constructor | cmd/reconnect.go:377-388 | no adapter, not closed, and the account holds |
| Reconnect.AccountedKept | cmd/reconnect.go:145-155 | closing the current adapter, or making one when there is none, keeps the account: no adapter is closed twice, and each one made is the current one or was closed |
| Reconnect.ReconnectingAdapter.CloseAdapter | cmd/reconnect.go:145-149 | afterwards every adapter ever made has been closed exactly once and there is no current one |
| Reconnect.ReconnectingAdapter.EnsureConnected | cmd/reconnect.go:129-142 | keeps the account; without an error the wrapper is not closed and its adapter is open; which error there is, and that an adapter is made only when there is none |
| Reconnect.ReconnectingAdapter.Reconnect | cmd/reconnect.go:144-156 | keeps the account; the adapter is closed even when making a new one fails, and there is one afterwards exactly when making it succeeds |
| Reconnect.ReconnectingAdapter.Close | cmd/reconnect.go:158-169 | keeps the account; afterwards the wrapper is closed and as many adapters have been closed as were made |
| Reconnect.ReconnectingAdapter.RetryOp | cmd/reconnect.go:171-210 | keeps the account; fields, attempts and outcome are those of the retry loop on the same turns |
| Reconnect.ReconnectingAdapter.Operate | cmd/reconnect.go:220-239 | a call run alone keeps the account and reports success exactly when one of its attempts succeeded |
| Pipeline.SplitOnDelim | cmd/pipeline.go:58-92 | the loop gives the trimmed pieces between delimiters outside quotes and escapes, without a blank last one |
| Pipeline.PiecesOfLine | cmd/pipeline.go:60-92 | the untrimmed pieces, joined by the delimiter, are the line; every piece but the last has its quotes closed |
| Pipeline.TrimKeepsPiece | cmd/pipeline.go:82-90 | trimming a piece neither makes a delimiter count nor opens a quote |
| Pipeline.ClosedIffWord | cmd/pipeline.go:60-92 | a text is read as one closed piece if and only if it is made of bare characters, backslashes with a character each, and stretches between two quotes of a kind |
| Pipeline.LineOfWords | cmd/pipeline.go:60-92 | a line made of such words with the delimiter between them splits into exactly those words |
| Pipeline.QuotedStaysWhole | cmd/pipeline.go:72-80 | no delimiter cuts between quotes of either kind, closed or not |
| Pipeline.EscapedStaysWhole | cmd/pipeline.go:66-72 | no character after a backslash cuts or opens a quote |
| Pipeline.DelimiterCuts | cmd/pipeline.go:81-86 | after text without quotes, backslashes and delimiters a delimiter does cut |
| Pipeline.VerbStages | cmd/pipeline.go:94-108 | a stage is a verb exactly when its first word, after white space, is one |
| Pipeline.Resplit | cmd/pipeline.go:60-92 | any run of stages of any line, joined with spaces round the delimiter and split again, comes back, but for an empty last stage |
| Pipeline.CoalesceStages | cmd/pipeline.go:147-163 | the loop groups as the definition by last stage does |
| Pipeline.CoalesceGroups | cmd/pipeline.go:139-163 | the blocks flatten to the stages, each verb is alone, and no two external blocks are neighbours |
| Pipeline.GroupingIsUnique | cmd/pipeline.go:139-163 | no other grouping has these properties |
| Pipeline.ExternalLine | cmd/pipeline.go:489-497 | the command line is the raw stages joined with a pipe between spaces |
| Pipeline.ExternalBlockResplits | cmd/pipeline.go:489-497 | for any line and any block, the command line splits back into exactly the block's stages if and only if its last stage is not empty; otherwise only that stage is missing |
| Pipeline.EmptyLastStageOccurs | cmd/pipeline.go:489-497 | a line with an empty stage before a verb is one whose external block loses a stage |
| SoftWrap.TextareaWrap | cmd/aitui.go:1160-1223 | the loop cuts the text into words and packs them as the two-step definition does |
| SoftWrap.WrapKeepsContent | cmd/aitui.go:1160-1223 | the rows one after another are the text with white space turned into blanks and one blank more, however widths are measured |
| SoftWrap.RowsAlmostFit | cmd/aitui.go:1174-1205 | with additive widths of one to `most` cells no row is wider than width + most - 1 |
| SoftWrap.UnitRowsFit | cmd/aitui.go:1174-1223 | with one-cell runes every row fits if and only if the width is at least one |
| SoftWrap.RowsFitIff | cmd/aitui.go:1174-1205 | with additive widths every row fits if and only if no stretch that had to be cut inside a word is wider than the width |
| SoftWrap.NarrowingFits | cmd/aitui.go:1174-1205 | every row of a text in which no rune is wider than the rune before it in its word fits every width its widest rune fits |
| SoftWrap.TwoCellRunesFitIff | cmd/aitui.go:1174-1223 | with one- and two-cell runes the rows fit at every width of two or more if and only if no word has a wide rune right after a narrow one |
| SoftWrap.WideRuneExceeds | cmd/aitui.go:1191-1203 | two narrow runes and a wide one make a row of four cells at a width of three |
| SoftWrap.WrapIsGreedy | cmd/aitui.go:1160-1223 | the rows group the pieces of the text in order; a row starts only with a piece that could not go on the row before, and takes every later piece that could |
| SoftWrap.WrapBreaksWhenFull | cmd/aitui.go:1160-1223 | in cells: each piece is as long as it can be, a row starts only with a piece that would have made the row before too wide or that fills a row, and takes every piece that leaves it within the width |
| SoftWrap.BreaksIff | cmd/aitui.go:1180-1215 | a piece starts a new row if and only if the row with it would be too wide, or the piece fills a row and the row is not empty |
| SoftWrap.ComputeInputLines | cmd/aitui.go:1135-1158 | the rows of all lines together, between one and the maximum of five |
| SoftWrap.LinesOfValue | cmd/aitui.go:1135-1158 | the lines that are wrapped hold no line break and joined by line breaks are the text |
| Consume.ConsumeMessages | cmd/consume.go:59-119 | output, reads and end of the loop are those of a run told without counters, for any source and any count, offset and follow flag |
| Consume.NothingElseIsRead | cmd/consume.go:104-116 | every message read is skipped, written, or the one whose writing failed; with a positive count at most offset + count are read |
| Consume.EndTells | cmd/consume.go:68-102 | how the loop ends, by what its last turn met: a read error if and only if the read failed, a write error if and only if the write failed, and no failure is told as the end of the source |
| Consume.OutputIs | cmd/consume.go:59-119 | message by message: what is written is the `omit`th message read and those after it, and `count` of them exactly when the loop ends for it |
| Consume.RunIsUnique | cmd/consume.go:59-119 | the description of a run has one outcome for given reads |
| Consume.NoLongerRun | cmd/consume.go:68-102 | no run goes on past a turn that ends another |
| NatsBrowse.QueueBrowser.constructor | broker/nats/browse.go:35-40 | the cursor is at the first number of the range |
| NatsBrowse.QueueBrowser.Next | broker/nats/browse.go:50-66 | the next stored message or error past all gaps and the cursor behind it, for every range of unsigned 64-bit numbers, wrap-around included; the call always ends |
| NatsBrowse.NextTakesFirst | broker/nats/browse.go:50-66 | a call gives the first stored message and leaves the others, also when the cursor wraps |
| NatsBrowse.NextTells | broker/nats/browse.go:50-66 | the first number from the cursor on that is no gap gives its message, or a failure if it cannot be read; no message means only gaps up to the end |
| NatsBrowse.BrowserStory | broker/nats/browse.go:43-66 | call by call the browser gives every stored message once and in order, and then says there is none |
| NatsBrowse.PeekIsASlice | cmd/consume.go:59-119 | peeking at an unchanging stream writes the stored messages without the first `omit` and at most `count` of them, and is over after at most one read more than there are messages |
| RedisTopic.TopicAdapter.constructor | broker/redis/topic_adapter.go:24-35 | no position is known |
| RedisTopic.TopicAdapter.SubscribeIndependent | broker/redis/topic_adapter.go:92-130 | the answer and the new cursors for any state of the server at either request, and any failure |
| RedisTopic.CallIsSubscribed | broker/redis/topic_adapter.go:92-130 | a call within a run is a call of the adapter |
| RedisTopic.RunKeepsInv | broker/redis/topic_adapter.go:92-130 | over any interleaving of posts and calls every cursor stands right behind what was delivered |
| RedisTopic.DeliveredIsAPrefix | broker/redis/topic_adapter.go:92-130 | what a subscriber was given is a prefix of the log after the position its first call fixed: no gap, repeat or reordering |
| RedisTopic.PositionIsFixedOnce | broker/redis/topic_adapter.go:93-109 | the position is the end of the log at the first successful position request, and never moves |
| RedisTopic.CallGivesTheNext | broker/redis/topic_adapter.go:110-129 | a call that answers "no message" has nothing left to deliver, one that answers a message gives the next of the log |
| RedisTopic.PublishAllExtends | broker/redis/topic_adapter.go:97-101 | what is posted later has ids above the last generated one |
| Relay.DoForward | cmd/forward.go:118-286 | refused exactly when source and destination have the same name and nothing makes one of them a queue and the other a topic; otherwise effects, count and end are those of a relay run told without counters |
| Relay.DoMove | cmd/move.go:57-120 | the same for the drain loop, which stops where `forward` polls again |
| Relay.Conservation | cmd/forward.go:245-285 | each message read is, in order, exactly one of delivered (with its metadata) and written out for recovery; only the last can be lost to a failed write, any other written out had a failed command |
| Relay.DeliveredFields | cmd/move.go:88-100 | a delivery field by field: a move takes over all fields but id and key, a forward these too, and the data is the command's output if there is a command and the message's own otherwise |
| Relay.EndTells | cmd/forward.go:185-285 | how a relay ends, by what its last turn met: stopped, read error and write error each if and only if that is what it met |
| Relay.LimitTells | cmd/forward.go:154-185 | only `forward` is interrupted, where its context is over, and a count of zero is no limit |
| Relay.CountIsKept | cmd/forward.go:245-276 | a positive count is never passed, and it is met exactly when the run ends because of it |
| Relay.MoveDeliversAllButOne | cmd/move.go:71-117 | a move delivers all it reads, or all but the last, whose payload it writes out |
| Relay.NegativeCounts | cmd/move.go:71-72 | a negative count means no limit to `forward` and no message at all to `move` |
| Relay.RelayIsUnique | cmd/forward.go:245-285 | the description of a run has one outcome for given reads and writes |
| RabbitAddress.EscapeName | broker/rabbitmq/resolve.go:56-86 | the scan and the builder loop give the percent-encoding, also on the path that returns the name unchanged |
| RabbitAddress.UnescapeEscape | broker/rabbitmq/resolve.go:56-86 | decoding gives back every byte string |
| RabbitAddress.ParseBuilt | broker/rabbitmq/topic_adapter.go:58-75 | exchange and key come back out of the address built of them, for all byte strings |
| RabbitAddress.DefaultExchange | broker/rabbitmq/topic_adapter.go:55-55 | a bare topic's address parses to the default exchange and the topic |
| RabbitAddress.ExchangeRoundTrip | broker/rabbitmq/resolve.go:21-41 | for an exchange and a key the resolved address parses back to the pair if and only if the key does not start with a slash |
| RabbitAddress.OtherTargets | broker/rabbitmq/resolve.go:27-54 | an exchange alone, a bare topic and queues parse to what they should, queues to no exchange address |
| RabbitAddress.QueueRoundTrip | broker/rabbitmq/resolve.go:27-54 | a queue's address is `/queues/` and then what decodes to the queue, named as a queue or as a bare target |
| RabbitAddress.EscapedBytes | broker/rabbitmq/resolve.go:56-86 | letters, digits and `-._~` stay, any other byte becomes a percent sign and its two upper-case hexadecimal digits |
| RabbitAddress.MalformedStays | broker/rabbitmq/topic_adapter.go:66-74 | a name with a percent sign that no two digits follow is taken as it is |
| RabbitAddress.AddressesDiffer | broker/rabbitmq/topic_adapter.go:48-56 | different pairs have different addresses |
| RabbitAddress.QueuesDiffer | broker/rabbitmq/resolve.go:27-30 | different queues have different addresses, none of them an exchange's |
| RabbitAddress.ResolvedIsFinal | broker/rabbitmq/topic_adapter.go:42-56 | resolving fails exactly without any name; a resolved address is taken as it is by the topic adapter, which makes the same one itself |
| Prune.PruneValueLoop | cmd/message_schema.go:59-84 | the recursive loops compute the pruned value |
| Prune.PruneMapLoop | cmd/message_schema.go:43-57 | the loop over a map gives the same result in any order of visiting |
| Prune.PruneCleans | cmd/message_schema.go:43-84 | a value survives exactly when something in it, at some depth, is worth keeping; what survives holds no null, blank text or empty container |
| Prune.PruneFixesClean | cmd/message_schema.go:43-84 | pruning changes nothing in exactly the clean values, so it is idempotent |
| Prune.PruneMapTwice | cmd/ndjson.go:113-113 | the prune on import finds nothing to drop after the prune on export |
| Prune.PruneKeepsLeaves | cmd/message_schema.go:43-84 | pruning loses and moves nothing worth keeping: each number, truth value and text that is not blank is found where it was, and nothing new is |
| Prune.PruneItemsConcat | cmd/message_schema.go:72-83 | the items of a list are pruned one by one and stay in order |
| Prune.BlankTexts | cmd/message_schema.go:64-69 | a text is blank exactly when it is white space, or `<nil>` in any case with white space around it |
| Base64.DecodeEncode | cmd/ndjson.go:66-76 | decoding base64 gives back every byte string, of any length |
| Base64.PaddingTells | cmd/ndjson.go:66-76 | four symbols for every three bytes begun, with padding for those that are missing |
| Utf8.ValidIffEncoded | cmd/ndjson.go:63-65 | a byte string counts as UTF-8 exactly when it encodes some characters |
| Ndjson.RecordKeepsPayload | cmd/ndjson.go:44-82 | a record gives back every payload byte for byte, and only UTF-8 is put into its text field |
| Ndjson.RecordFields | cmd/ndjson.go:44-67 | each field of a record by the message's field: UTF-8 payloads as they are, others as base64 that decodes to them, and exactly the properties with something worth keeping |
| Ndjson.ForEachRecord | cmd/ndjson.go:95-123 | the scanning loop visits what the definition by lines says, with the count of visited records, for every text and every failing visit |
| Ndjson.ScanTells | cmd/ndjson.go:95-123 | a scan visits the records of the good lines up to the first line that is too long, is no record, or whose visit fails, and ends as that line says |
| Ndjson.LineTells | cmd/ndjson.go:95-113 | a line is too long by its bytes of UTF-8, blank if it is nothing but white space, and otherwise a record with pruned properties |
| Ndjson.ImportUndoesExport | cmd/ndjson.go:50-114 | an imported record has the exported message's payload, and is the very same record if its properties hold no numbers |
| Ndjson.BatchRoundTrip | cmd/ndjson.go:84-123 | importing an export visits the messages in order up to the first whose line is too long, and is done exactly when none is |
| Ndjson.BatchKeepsPayloads | cmd/ndjson.go:84-123 | within the line limit every payload of a batch comes back byte for byte, in order |
| Ndjson.LinesConcatenate | cmd/ndjson.go:95-107 | two files one after the other have the lines of both, if the first ends with a line break |
| Ndjson.ScanConcatenates | cmd/ndjson.go:95-107 | so the second is read as if the first had just been read |
| Template.FormatMessage | cmd/format.go:34-47 | the index loop prints what tokenising and substituting gives, within bounds, for every format |
| Template.WriteEscape | cmd/format.go:49-70 | one escape is appended as its token's text and the index moves by the token's length |
| Template.WriteToken | cmd/format.go:72-117 | the same for a percent token, with or without a name in braces |
| Template.BraceArg | cmd/format.go:119-131 | the name in braces and the closing index exactly when there is one |
| Template.SpansCover | cmd/format.go:14-33 | the tokens cover the format byte for byte, and a literal token is its own text but for the five escapes, so nothing is dropped |
| Template.DoubledIsLiteral | cmd/format.go:34-117 | text with every percent sign and backslash doubled stands for itself whatever follows |
| Template.DoublingRoundTrip | cmd/format.go:34-117 | doubling renders back to the text |
| Template.FieldIsSubstitutedOnce | cmd/format.go:74-94 | a field's text is put between literal texts as it is, never read as a format again |
| Template.LettersPrint | cmd/format.go:80-94 | the field that each letter prints |
| Template.NumbersPrint | cmd/format.go:82-91 | the size and the priority print as decimal numbers that read back as they are |
| Template.EscapesPrint | cmd/format.go:49-70 | the byte that each escape prints; a backslash before anything else prints with it |
| Template.UnknownPrintsItself | cmd/format.go:110-117 | a percent sign before a character of no meaning prints with it |
| Template.NamedValueIsSubstitutedOnce | cmd/format.go:95-131 | so is the value of a property or metadata key named in braces |
| Template.DigitsRead | cmd/format.go:82-92 | printed numbers read back as the number |
| MqttMatch.TopicMatchesFilter | broker/mqtt/subs.go:78-102 | the loop, with its equality shortcut, decides the level-wise match, for every filter and topic |
| MqttMatch.SelfMatches | broker/mqtt/subs.go:82-84 | equal filter and topic match anyway, so the shortcut never changes the answer |
| MqttMatch.LevelsJoin | broker/mqtt/subs.go:85-86 | the levels hold no slash and join to the text |
| MqttMatch.MatchesIsStandard | broker/mqtt/subs.go:78-102 | whenever the multi-level wildcard is the last level, as it must be, the match is the standard's, level by level |
| MqttMatch.RestAfterHashIsIgnored | broker/mqtt/subs.go:88-90 | a multi-level wildcard that is not last makes the rest of the filter irrelevant |
| MqttMatch.MatchesAreInstances | broker/mqtt/subs.go:78-102 | a topic matches exactly when it comes out of the filter by putting one level in for each single-level wildcard, and any levels or none for the multi-level one |
| MqttMatch.InnerFilter | broker/mqtt/subs.go:44-51 | the filter inside a shared subscription comes out, for every group name |
| MqttMatch.OnlySharesAreStripped | broker/mqtt/subs.go:44-51 | nothing else is stripped |
| CappedBuffer.Buffer.constructor | cmd/ai.go:275-282 | empty |
| CappedBuffer.Buffer.Grow | cmd/ai.go:286-286 | room for more bytes with the same contents |
| CappedBuffer.Buffer.Append | cmd/ai.go:286-286 | the bytes are added at the end |
| CappedBuffer.Buffer.Trim | cmd/ai.go:287-291 | the last `max` bytes are moved to the front in place, without overwriting a byte still to be read |
| CappedBuffer.Buffer.Write | cmd/ai.go:284-293 | contents after a write: all of it, or the last `max` bytes once it passes twice the cap |
| CappedBuffer.Buffer.String | cmd/ai.go:295-301 | the last `max` bytes held, everything without a cap |
| CappedBuffer.WriteStandsFor | cmd/ai.go:284-293 | a write keeps the storage an end of all that was written, long enough for the cap and at most twice as long |
| CappedBuffer.TextIsTheLastBytes | cmd/ai.go:275-301 | after any writes the text is the last min(max, total) bytes of everything written, and all of it without a cap |
| CappedBuffer.TextIsTheEnd | cmd/ai.go:275-301 | the text is the end of everything written, min(max, total) bytes of it |
| CappedBuffer.KeepsUpToTwice | cmd/ai.go:284-293 | nothing is cut before twice the cap is passed |
| RateLimiter.Limiter.constructor | cmd/rate.go:17-24 | the interval is the largest number of whole nanoseconds at which that many calls still fit a second, and zero for rates that are not positive |
| RateLimiter.Limiter.Wait | cmd/rate.go:26-39 | when the call returns and which slot is next, for any clock reading and any oversleeping |
| RateLimiter.SlotsAreAGrid | cmd/rate.go:26-39 | after k calls the next slot is k intervals after the first call, however late the callers were |
| RateLimiter.BackNoEarlier | cmd/rate.go:26-39 | call k is back no earlier than its slot, and right on it exactly when it came by then and slept no longer than asked |
| RateLimiter.RateIsKept | cmd/rate.go:12-39 | k + 1 calls are never back within less than k intervals of the first |
| RateLimiter.SwitchedOff | cmd/rate.go:17-24 | limiting is on exactly for rates above zero and up to one call per nanosecond |
| RateLimiter.OffReturnsAtOnce | cmd/rate.go:26-30 | a limiter that is switched off returns every call at once and keeps no slot |

## Left out

- Text, colours, widths and ANSI codes of the sidebar: its lines are modelled as kinds of line with a window and a row index.
- Sorting and case folding of sidebar nodes: parameters; of the sort only that it permutes is used, and it is one function of its input, so equal keys always come out in the same order.
- Removing one byte from a filter: the model removes one character.
- Shell states other than idle, slash commands, prompts for sidebar actions and the AI conversation: over-approximated by events that change the prompt, launch a process, reload or quit at any time.
- TuiModel.Model.HandleKeyIdle: history, completion and the text input are one arbitrary new prompt, so the laws hold for any text they put there; whether a line ends in a bare ampersand and whether it asks to run in the background are parameters.
- TuiRuns.ToggleKeepsNodeIff: speaks of top-level nodes; a selected child has no row at all without the tree.
- Process output, exit errors and the bounded wait for processes at shutdown: text and timing only.
- A shell without a running terminal program, which never sends the cancel function.
- Error texts, log lines and the last error named by an exhausted retry.
- Real time in the backoff policy: a policy is the number of retries it grants; the topic wrapper is the queue wrapper again.
- Which errors count as lost connections: the backend's answer says so.
- Word splitting for verbs, aliases and the plumbing between pipeline stages.
- Invalid UTF-8 in shell lines and in files that are imported.
- The terminal library's width tables: widths are parameters; the width bounds are for additive ones, without runes of width zero.
- Context cancellation in the middle of a read: a read answers "canceled" or does not.
- Publishing to NATS or Redis streams that are trimmed or deleted while they are read.
- Redis consumer groups and the subscription queues of RabbitMQ.
- The shell command of `forward`: its output or failure is part of the script.
- `bridge`, which drops write errors.
- The JSON library: a pair of functions taken to be faithful, stated in `Ndjson.Faithful`; only the payload is required to survive when properties hold numbers.
- Property values of other Go types: pointers, typed slices and maps, and maps whose keys are not strings.
- Prune.PruneValueLoop: numbers and truth values are one kind of value, because pruning keeps them all.
- How property values and the sorted property list print in templates: given with the message.
- The server's own topic rules in MQTT, such as topics that start with a dollar sign.
- MQTT subscription buffers, which drop messages when full.
- The bytes.Buffer growth policy: only that growing keeps the contents.
- RateLimiter.Limiter.constructor: the interval is an unbounded integer, so rates too small for a 64-bit duration are not modelled, and the division is exact rather than in floating point.
- Small formatting helpers, prefix tables and default timeouts: easy members only.
