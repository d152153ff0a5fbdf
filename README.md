# Task timer core in Dafny

This project models the core of a terminal task timer written in Rust.
A project is a markdown file of headings and check-box tasks. The timer
parses that file into a document tree and shows one node of the tree at a
time: its tasks first, then one summary row per child heading. The user can
complete tasks, run one timer at a time, move into a child heading or back
to its parent, collapse parts of the outline, and read a bounded, filtered
log of what happened. The tree can be written back to markdown.

The model covers these parts of the program:

- The document tree (`DocTree`): the node with its task texts, completion
  flags, per-task times and children. It also holds the rollup of a subtree
  (time summed, completion as a conjunction) and path search and path update.
  `find_path`, `get_node` and `update_node` belong to the `node` module that
  `src/main.rs:10` declares (`src/node.rs`). `components/main_view.rs:21` and
  `components/views/task_view/task_view.rs:18` import `Node` and `NodePath`
  from it. `src/node.rs` is not part of this model. The three functions are
  given bodies here, and their contracts are what the call sites rely on
  (`task_view.rs` lines 107, 126 and 187, `main_view.rs` lines 404, 423 and
  484).
- The line parser from markdown to tree (`MarkdownParser`), with its stack of
  child indices, and the serialiser back to markdown (`MarkdownSerialiser`).
- The paginator (`Pagination`) and the formatting of durations
  (`DurationFormat`, `TimeStamps`).
- The task rows and the single-active-timer state:
  - `TaskRows` covers the task-view revision;
  - `HomeTimers` covers the home-view revision;
  - `TimerColumn` covers the timer column, with its table of `TimeData` flags.
- The navigation controllers. `TaskScreen` models the task view together with
  the dispatcher of `components/main_view.rs`. `HomeView` models the home main
  view. `Breadcrumbs` models the breadcrumb bar.
- The collapse tables of the outline views (`TaskOutline`, `MarkdownOutline`)
  and the home task overview (`TaskOverviews`).
- The logs:
  - the bounded buffers (`LogBuffers`, `Logging`);
  - the filters and sub-filters (`LogFilters`, `TimerLogView`, `ComponentLogView`);
  - the enum stepping and messages (`InfoSubtypes`, `LogTypes`).
- The quit-prompt state machine and the session loop's key handling
  (`Popups`, `Sessions`), and the generic n-ary tree (`NaryTree`).
- The key bindings (`Keys`).

Durations are whole seconds, so a `Duration` is a `nat`. Screen rows and
counters that the source stores as `u16` are `nat`. Where the source
truncates with `as u16`, the model uses `Pagination.AsU16`, except in the
places named under "## Left out". Wall-clock
readings are parameters (`TimeStamp` values passed in). Where the source
mutates an object in place, the model is a class whose methods state the new
value of every field. Where the source computes a value, the model is a
function, with lemmas that relate it to a reference definition.

Several places in the source use a type, field or method that the repository
does not contain:

- `task_timer/views/home/main_view.rs` calls `push_breadcrumb` and
  `pop_breadcrumb`, which `task_timer/views/home/navigation_bar.rs` does not
  have. The home view uses the breadcrumb bar of `task_view/navigation_bar.rs`.
- `task_timer/session_manager.rs` calls `window.enable_popup`, which the
  window in the repository does not have. The model records it as a
  `popupShown` flag.
- `task_timer/node.rs` defines a `Node` with only `heading`, `content` and
  `children`. Several files read `completed_tasks` or `content_times` from
  it:
  - `task_timer/views/home/timers.rs` (lines 30-33, 124, 127);
  - `task_timer/views/home/tasks_overview.rs` (line 21);
  - `task_timer/views/task_view/tasks.rs` (lines 72-75, 101, 104);
  - `task_timer/views/tasks.rs` (line 151);
  - `task_timer/timer_view.rs` (lines 113, 125);
  - `task_timer/markdown_view.rs` (lines 205, 211);
  - `task_timer/window.rs` (lines 148, 161);
  - `markdown_serialiser/markdown_serialiser.rs` (line 24).

  The model reads these fields from `DocTree.Node`. It stands for the `Node`
  of the `node` module in `src/node.rs`, which is not part of this model. The
  generic node of `task_timer/nary_tree/node.rs` is a different type, modelled
  as `NaryTree.Tree`.
- `task_timer/node.rs` does not define `NodePath`, yet five files import it
  from `task_timer::node`:
  - `task_timer/views/tasks.rs:9`;
  - `task_timer/timer_view.rs:6`;
  - `task_timer/markdown_view.rs:8`;
  - `task_timer/views/task_status.rs:3`;
  - `task_timer/views/home/main_view.rs:11`.

  The components import `NodePath` from `src/node.rs`, which is not part of
  this model. The model uses `DocTree.NodePath`, a sequence of child
  indices.

`src/config.rs` binds `page_up` to 'J' and `page_down` to 'K'. Two dispatchers
react to these keys in opposite ways:

- The dispatcher in `components/main_view.rs` goes forward a page on
  `page_down` ('K') and selects line 1. It goes back a page on `page_up`
  ('J') and selects the last line.
- `components/views/task_view/task_view.rs` matches the characters directly.
  It goes forward a page on 'J' and selects line 1. It goes back a page on
  'K' and selects the last line.

Both behaviours are modelled as written (`TaskScreen.TaskView.Event` and
`TaskScreen.TaskView.HandleEvents`).

## Model

| member | source | states |
|---|---|---|
| DocTree.EmptyRoot | src/components/views/task_view/task_view.rs:40-58 | The default node has no heading, no content and no children. |
| DocTree.SumAppend | src/task_timer/views/task_view/tasks.rs:104 | The sum of times over a concatenation is the sum of the sums. |
| DocTree.SumUpdate | src/components/views/task_view/task_view.rs:117-118 | Replacing one time changes the total by exactly the difference. |
| DocTree.AllTrueAppend | src/task_timer/views/task_view/tasks.rs:106-115 | "All completed" over a concatenation is the conjunction of both parts. |
| DocTree.RollupMatchesSubtree | src/task_timer/views/task_view/tasks.rs:100-120 | The rolled-up duration is the sum of every task time in the subtree. The rolled-up flag is true iff every task in the subtree is completed. |
| DocTree.ChildrenRollupMatches | src/task_timer/views/task_view/tasks.rs:108-118 | The loop over the children adds the sum of their subtree times and the conjunction of their subtree flags. |
| DocTree.Rollup | src/task_timer/views/task_view/tasks.rs:100-120 | A node rolls up as completed only if all its own tasks are completed. Its duration is at least the sum of its own task times. |
| DocTree.ChildrenDuration | src/task_timer/views/task_view/tasks.rs:106-118 | The children's summed duration is at least each child's rolled-up duration. |
| DocTree.ChildrenCompleted | src/task_timer/views/task_view/tasks.rs:106-118 | The children count as completed iff every child rolls up as completed. |
| DocTree.FindPathSound | src/task_timer/views/home/main_view.rs:62-67 | When `find_path` succeeds, `get_node` at that path yields the target. |
| DocTree.FindPathFromSound | src/task_timer/views/home/main_view.rs:90-96 | The same soundness for the search among the later children of a node. |
| DocTree.FindPathComplete | src/task_timer/views/home/main_view.rs:62-67 | `find_path` succeeds iff the target occurs in the tree. |
| DocTree.FindPathFromComplete | src/task_timer/views/home/main_view.rs:90-96 | The search among the later children succeeds iff the target occurs under one of them. |
| DocTree.GetNode | src/components/views/task_view/task_view.rs:185-190 | A node that `get_node` returns occurs in the tree it was read from. |
| DocTree.FindPath | src/components/views/task_view/task_view.rs:107-110 | The search is pre-order: it returns the empty path exactly when the root itself is the target. |
| DocTree.FindPathFrom | src/task_timer/views/home/main_view.rs:90-96 | A path found among the children from index i on is non-empty and starts with a child index in [i, children.len()). |
| DocTree.SetAtGet | src/components/views/task_view/task_view.rs:126 | After writing a node at a valid path, reading that path yields the written node. |
| DocTree.SetAtKeepsPrefix | src/components/views/task_view/task_view.rs:178-192 | Writing at a path keeps every ancestor on the path, with its heading unchanged. |
| DocTree.WriteBack | src/components/views/task_view/task_view.rs:153-168 | Overwriting the displayed node at its found path puts the new node there. |
| DocTree.UpdateNode | src/components/views/task_view/task_view.rs:153-168 | The update fails iff the path does not resolve. On success, the node at the path carries the source's times, flags and total time. |
| DocTree.SetAtWellFormed | src/task_timer/timer_view.rs:113 | Writing a well-formed node keeps every node's task lists of equal length. |
| DocTree.GetNodeWellFormed | src/task_timer/timer_view.rs:113 | Every node reached by a path of a well-formed tree is well-formed. |
| DocTree.UpdateNodeWellFormed | src/components/views/task_view/task_view.rs:104-127 | An update whose lists match the target's content succeeds and keeps the tree well-formed. |
| DocTree.GetNodeChildrenHeaded | src/components/views/task_view/task_view.rs:202-220 | In a tree whose non-root nodes are all headed, every node reached by a non-empty path has a heading. |
| DocTree.CommitKeepsHeadings | src/components/views/task_view/task_view.rs:153-168 | Committing times and flags keeps every heading in the tree. |
| MarkdownParser.NewNode | src/task_timer/node.rs:9-15 | A new node has no heading, no content and no children. |
| MarkdownParser.NewWithHeading | src/task_timer/node.rs:17-23 | `new_with_heading(h)` has heading `Some(h)`, no content and no children. |
| MarkdownParser.Split | src/task_timer/node.rs:26 | Splitting on "\n" yields at least one piece, and no piece contains a newline. |
| MarkdownParser.SplitJoin | src/task_timer/node.rs:26 | Joining the pieces with "\n" gives back the input, so splitting loses nothing. |
| MarkdownParser.NonEmpty | src/task_timer/node.rs:26 | The filter keeps only non-empty pieces, each one taken from the input. |
| MarkdownParser.Lines | src/task_timer/node.rs:26 | The parsed lines are non-empty and contain no newline. |
| MarkdownParser.HashCount | src/task_timer/node.rs:39 | The depth counts '#' anywhere in the line and is positive iff the line contains a '#'. |
| MarkdownParser.ValidStackPrefix | src/task_timer/node.rs:44-46 | Popping the index stack keeps every remaining index addressing an existing child. |
| MarkdownParser.ReplaceAt | src/task_timer/node.rs:71-77 | Writing through a non-empty stack keeps the root's heading, content and number of children. |
| MarkdownParser.ReplaceAtElsewhere | src/task_timer/node.rs:71-77 | A path that leaves the written stack at some level reaches the same node as before the write. |
| MarkdownParser.ReplaceAtGet | src/task_timer/node.rs:71-77 | After writing through a valid stack, `find_heading_level` on that stack yields the written node. |
| MarkdownParser.ChildrenCountAgree | src/task_timer/node.rs:41-49 | Nodes with the same first k children have the same heading count over them. |
| MarkdownParser.ChildrenCountReplace | src/task_timer/node.rs:48-49 | Replacing one child changes the heading count by the difference of the two subtrees' counts. |
| MarkdownParser.ReplaceAtCount | src/task_timer/node.rs:48-49 | Writing through the stack changes the tree's heading count by the difference between the new and old node's counts. |
| MarkdownParser.AppendChildCount | src/task_timer/node.rs:49 | Appending a heading child raises the heading count by one. |
| MarkdownParser.AppendContent | src/task_timer/node.rs:55-67 | Content `None` becomes the line. Existing content gets "\n" and then the line appended, and its old text stays a prefix. |
| MarkdownParser.ConvertLine | src/task_timer/node.rs:38-69 | A heading line pops the stack to fewer than d entries. It appends the whole line as the last child of the addressed node, then pushes that child's index and leaves at most d entries. A plain line keeps the stack and appends to the addressed node's content. In both cases the new tree is the old one with only the addressed node replaced (see ReplaceAtElsewhere). A heading adds one heading and a plain line none. The stack stays valid, so indexing never fails. |
| MarkdownParser.NodeAtExtend | src/task_timer/node.rs:73-75 | Extending a valid stack by an existing child index addresses that child. |
| MarkdownParser.ConvertFrom | src/task_timer/node.rs:25-36 | The root has no heading. The number of heading nodes equals the number of non-empty lines that contain a '#'. Input without a '#' becomes a childless root whose content is the non-empty lines joined by "\n", or `None`. |
| MarkdownParser.PlainRootStep | src/task_timer/node.rs:55-67 | A plain line keeps a heading-free parse a childless root with the lines joined. |
| MarkdownParser.JoinSnoc | src/task_timer/node.rs:61-62 | Appending a line joins it after one "\n". |
| MarkdownSerialiser.Checkbox | src/markdown_serialiser/markdown_serialiser.rs:22-31 | A task prefix is "- [x] " when completed and "- [ ] " otherwise. |
| MarkdownSerialiser.PushNode | src/markdown_serialiser/markdown_serialiser.rs:17-20 | A headed node's text starts with its heading followed by "\n". |
| MarkdownSerialiser.IndentIrrelevant | src/markdown_serialiser/markdown_serialiser.rs:14-38 | The output of `push_node` does not depend on `indent_len`. |
| MarkdownSerialiser.ChildrenIndentIrrelevant | src/markdown_serialiser/markdown_serialiser.rs:33-35 | The children's text does not depend on `indent_len` either. |
| MarkdownSerialiser.ConcatIndexable | src/markdown_serialiser/markdown_serialiser.rs:22-24 | The indexing precondition (`completed_tasks` at least as long as `content`) holds for a concatenation of lists that meet it. |
| MarkdownSerialiser.ExportSplit | src/markdown_serialiser/markdown_serialiser.rs:5-12 | `export` of a concatenation of children is the concatenation of their exports, so children appear in order. |
| MarkdownSerialiser.NewlineCountAppend | src/markdown_serialiser/markdown_serialiser.rs:14-38 | Newline counts add up over concatenation. |
| MarkdownSerialiser.NoNewlines | src/markdown_serialiser/markdown_serialiser.rs:22-31 | A single-line text adds no newline of its own. |
| MarkdownSerialiser.TaskTextLines | src/markdown_serialiser/markdown_serialiser.rs:22-31 | k single-line tasks emit exactly k lines. |
| MarkdownSerialiser.PushNodeLineCount | src/markdown_serialiser/markdown_serialiser.rs:14-38 | A node emits one line for its heading if it has one, plus one per task, plus its children's lines. |
| MarkdownSerialiser.ChildrenLineCountLemma | src/markdown_serialiser/markdown_serialiser.rs:33-35 | The children's output has as many lines as their headed nodes and tasks. |
| MarkdownSerialiser.ExportLineCount | src/markdown_serialiser/markdown_serialiser.rs:5-12 | The export has exactly as many lines as there are headed nodes and tasks in the serialised subtrees. |
| Pagination.AsU16 | src/task_timer/views/paginator.rs:30-41 | The `as u16` cast is below 65536 and the identity on values that fit. |
| Pagination.AsU16Add | src/task_timer/views/home/tasks_overview.rs:28 | Adding two lengths each cast to u16, with the sum wrapping, gives the cast of the plain sum. |
| Pagination.Window | src/task_timer/views/paginator.rs:43-49 | The slice starts at `page*page_size` and ends at `min(start + page_size, entry_len)`. |
| Pagination.Paginator.constructor | src/task_timer/views/paginator.rs:8-13 | A new paginator (the derived default, with a page size) is on page 0 with no entries. |
| Pagination.Paginator.NextPage | src/task_timer/views/paginator.rs:16-20 | `page` goes up by one iff `(page+1)*page_size < entry_len`. Otherwise nothing changes. |
| Pagination.Paginator.PrevPage | src/task_timer/views/paginator.rs:22-24 | `page` goes down by one and saturates at 0. |
| Pagination.Paginator.Offset | src/task_timer/views/paginator.rs:26-28 | The offset is the start of the page slice. |
| Pagination.Paginator.PageSlice | src/task_timer/views/paginator.rs:43-49 | The slice starts at `page*page_size`, ends within the entries and holds at most a page. On a reachable page (page 0, or a start inside the entries) the start is not past the end. |
| Pagination.Paginator.ContentHeight | src/task_timer/views/paginator.rs:30-41 | The height is `entry_len - offset` on a short last page. Otherwise it is `offset + page_size`, truncated to u16. |
| Pagination.PrevPageStaysInside | src/task_timer/views/paginator.rs:16-24 | A page reached by `next_page` starts inside the entries, so the reachable pages satisfy `page == 0 || page*page_size < entry_len`. |
| Pagination.WindowInside | src/task_timer/views/paginator.rs:43-49 | On a reachable page, start <= end <= entry_len. |
| Pagination.ContentHeightOnLaterFullPage | src/task_timer/views/paginator.rs:30-41 | On a later full page, the height is `offset + page_size`, which exceeds the page size. |
| DurationFormat.Digits | src/task_timer/views/task_view/task.rs:27 | A number prints as at least one decimal digit. |
| DurationFormat.DigitsRoundTrip | src/task_timer/views/task_view/task.rs:27 | Reading the printed digits back gives the number. |
| DurationFormat.Pad2Small | src/task_timer/views/task_view/task.rs:27 | A value below 100 prints as exactly two zero-padded digits. |
| DurationFormat.Pad2RoundTrip | src/task_timer/views/task_view/task.rs:27 | A zero-padded field has at least two digits and reads back as its value. |
| DurationFormat.Hms | src/task_timer/views/task_view/task.rs:22-28 | hours*3600 + minutes*60 + seconds == secs, with minutes < 60 and seconds < 60. |
| DurationFormat.FormatDuration | src/task_timer/views/task_view/task.rs:22-28 | The text is bracketed "[...]" and at least 10 characters long. |
| DurationFormat.FormatDurationRoundTrip | src/task_timer/views/task_view/task.rs:22-28 | Below 100 hours the text is "[HH:MM:SS]", 10 characters, and reads back as the number of seconds. |
| DurationFormat.Blanks | src/task_timer/timer_view.rs:146-152 | The indent is n spaces. |
| DurationFormat.FormatTimeAsWritten | src/task_timer/timer_view.rs:146-152 | The timer column text is the indent, then a bracketed clock whose minutes field is `secs/60`, then a space. |
| DurationFormat.FormatTimeAsWrittenOneHour | src/task_timer/markdown_view.rs:237-243 | 3600 seconds prints "[01:60:00] ", which does not read back as 3600. |
| DurationFormat.FormatTime | src/task_timer/timer_view.rs:146-152 | The corrected format has the indent, then the clock, then a space. |
| DurationFormat.FormatTimeRoundTrip | src/task_timer/timer_view.rs:146-152 | With minutes reduced modulo 60, the clock after the indent reads back as the number of seconds. |
| TimeStamps.Print | src/task_timer/views/log/time_stamp.rs:26-31 | The stamp prints the day, a space, the month, and then the time. |
| TimeStamps.PrintReadsBack | src/components/log_view.rs:151-157 | The printed day and the printed HH:MM:SS read back as the stamp's values. |
| TaskRows.TaskRow | src/task_timer/views/task_view/tasks.rs:69-89 | Task row i takes its name, completion and duration from `content[i]`, `completed_tasks[i]` and `content_times[i]`. |
| TaskRows.TaskRowsOf | src/task_timer/views/task_view/tasks.rs:69-89 | There is one task row per completion flag, in index order. |
| TaskRows.Summary | src/task_timer/views/task_view/tasks.rs:100-120 | A child's summary row has its heading as name, plus the rolled-up duration and completion. |
| TaskRows.SummariesOf | src/task_timer/views/task_view/tasks.rs:91-98 | There is one summary row per child, in order. |
| TaskRows.ExtractTasks | src/task_timer/views/task_view/tasks.rs:69-89 | The loop builds exactly the task rows. |
| TaskRows.SubheadingTimes | src/task_timer/views/task_view/tasks.rs:91-98 | The loop builds exactly the summary rows. |
| TaskRows.ExtractEntry | src/task_timer/views/task_view/tasks.rs:100-120 | The recursive loop computes the summary: duration is own times plus the children's durations, and completed is all own tasks and all children completed. |
| TaskRows.SummaryMatchesSubtree | src/components/main_view.rs:140-160 | A summary's duration is the sum over the whole subtree. It is completed iff every task in the subtree is. |
| TaskRows.Tick | src/task_timer/views/task_view/tasks.rs:186-197 | A tick adds one second to the active row and leaves every other row unchanged. |
| TaskRows.Durations | src/task_timer/views/task_view/tasks.rs:186-197 | The durations of the rows, in order. |
| TaskRows.TickAddsOneSecond | src/components/main_view.rs:226-237 | A tick raises the total of all row durations by exactly one second. |
| TaskRows.Toggled | src/task_timer/views/task_view/tasks.rs:128-144 | Toggling flips only the completion of row idx. |
| TaskRows.Tasks.constructor | src/task_timer/views/task_view/tasks.rs:31-50 | New rows are the task rows followed by the summaries. `task_offset` is the task count, no timer is active, line 1 is selected, and the height is the count as u16. |
| TaskRows.Tasks.Default | src/components/main_view.rs:71-90 | The default table is empty, with nothing active. |
| TaskRows.Tasks.Update | src/task_timer/views/task_view/tasks.rs:52-67 | Only the selected line changes. |
| TaskRows.Tasks.TaskSlice | src/task_timer/views/task_view/tasks.rs:122-124 | The task slice is the first `task_offset` rows. |
| TaskRows.Tasks.ToggleTask | src/task_timer/views/task_view/tasks.rs:128-144 | Flips row idx and returns Uncomplete or Complete by the old value. Clears the timer iff it was on the selected line. |
| TaskRows.Tasks.SliceBounds | src/task_timer/views/task_view/tasks.rs:146-149 | Sets the page bounds and nothing else. |
| TaskRows.Tasks.TryActivate | src/task_timer/views/task_view/tasks.rs:160-184 | A running timer is stopped (StopTimer), whatever row is selected. Otherwise the call errors on subheading or completed rows and leaves no timer. On success, it starts the timer on that row, which is then on the selected line. |
| TaskRows.Tasks.ActiveOnLine | src/task_timer/views/task_view/tasks.rs:151-158 | True iff a timer runs and the selected line is that row's line on the current page (`active_time - page_start + 1`). |
| TaskRows.Tasks.UpdateTime | src/task_timer/views/task_view/tasks.rs:186-197 | With a timer active, exactly that row gains one second. Without one, nothing changes. |
| Breadcrumbs.LeadingHashes | src/task_timer/views/task_view/navigation_bar.rs:24-27 | Counts the maximal run of leading '#'. |
| Breadcrumbs.LeadingSpaces | src/task_timer/views/task_view/navigation_bar.rs:24-27 | Counts the maximal run of leading whitespace. |
| Breadcrumbs.TrailingSpaces | src/task_timer/views/task_view/navigation_bar.rs:24-27 | Counts the maximal run of trailing whitespace. |
| Breadcrumbs.CrumbStart | src/task_timer/views/task_view/navigation_bar.rs:24-27 | The crumb starts after all leading '#' and the whitespace that follows them. |
| Breadcrumbs.Crumb | src/task_timer/views/task_view/navigation_bar.rs:24-27 | The crumb is the heading with leading '#' removed and whitespace trimmed: a slice of the heading, without whitespace at either end. |
| Breadcrumbs.CrumbOfCleanHeading | src/components/main_view.rs:270-278 | A heading with no '#' or outer whitespace is its own crumb. |
| Breadcrumbs.Popped | src/task_timer/views/task_view/navigation_bar.rs:29-31 | Popping drops the last crumb and is a no-op when empty. |
| Breadcrumbs.PushThenPop | src/task_timer/views/task_view/navigation_bar.rs:24-31 | Push followed by pop restores the breadcrumb list. |
| Breadcrumbs.NavigationBar.constructor | src/task_timer/views/task_view/navigation_bar.rs:17-22 | The back text is " (b) Back " and there are no breadcrumbs. |
| Breadcrumbs.NavigationBar.PushBreadcrumb | src/task_timer/views/task_view/navigation_bar.rs:24-27 | Appends the crumb of the heading. |
| Breadcrumbs.NavigationBar.PopBreadcrumb | src/task_timer/views/task_view/navigation_bar.rs:29-31 | Removes only the last crumb. |
| Keys.DefaultKeyConfig | src/config.rs:23-44 | The default bindings, with page up on 'J' and page down on 'K'. |
| Keys.FirstMatch | src/components/main_view.rs:530-579 | The position of the first binding the key equals, with no earlier binding equal to it. It is the number of bindings iff the key is bound to none. |
| Keys.DefaultTaskViewKeysDistinct | src/components/main_view.rs:530-579 | The eight task-view keys are pairwise distinct under the defaults, so each reaches its own branch. |
| TaskScreen.Flags | src/components/views/task_view/task_view.rs:133-137 | The completion flags of the rows, in order. |
| TaskScreen.Subheading | src/components/views/task_view/task_view.rs:93-102 | With g = offset+line-1, yields `children[g - task_offset]` iff `task_offset <= g < task_offset + children.len()`, else None. |
| TaskScreen.SubheadingIsSummaryRow | src/components/views/task_view/task_view.rs:93-102 | The child found for a line is the one whose summary row is shown on that line. |
| TaskScreen.WriteTimeStep | src/components/views/task_view/task_view.rs:115-118 | Writing row i's duration extends the written prefix by one time, and the running total grows by that duration. |
| TaskScreen.CollectTimes | src/components/views/task_view/task_view.rs:104-124 | After the loop, `content_times[i]` is row i's duration and `total_time` is own times plus the children's totals. |
| TaskScreen.TaskView.constructor | src/components/views/task_view/task_view.rs:40-58 | Empty root and displayed node, no rows, page 0, line 1, no breadcrumbs. |
| TaskScreen.TaskView.Update | src/components/views/task_view/task_view.rs:76-79 | Passes the selected line to the rows and recomputes the height from the paginator. |
| TaskScreen.TaskView.UpdateDisplayData | src/components/views/task_view/task_view.rs:81-91 | Rebuilds the rows from the new node with no timer, line 1 and page 0. Sets `entry_len` to the row count and the slice bounds to `page_slice()`. |
| TaskScreen.TaskView.UpdatePaginator | src/components/views/task_view/task_view.rs:146-151 | Sets `entry_len` and copies `page_slice()` into the rows. |
| TaskScreen.TaskView.GetSubheading | src/components/views/task_view/task_view.rs:93-103 | Yields a node iff the line's global row `offset + line - 1` is a summary row, and that node is a child of the displayed node. |
| TaskScreen.TaskView.UpdateRoot | src/components/views/task_view/task_view.rs:153-168 | Errors with nothing changed iff the displayed node is not found in the root. Otherwise returns its path, writes the rows' flags into the displayed node and commits it at that path, where it then sits. |
| TaskScreen.TaskView.UpdateTime | src/components/views/task_view/task_view.rs:104-127 | Ticks the active row. Then it copies the durations and the new total into the displayed node and the root, or errors when the displayed node is not on the tree. |
| TaskScreen.TaskView.ToggleTask | src/components/views/task_view/task_view.rs:129-144 | A summary row gives Err("Cannot complete a subheading") and changes nothing. A task row is flipped, a timer running on it stops, and the flags are committed into the displayed node and the root. The result names the task and whether it was completed or reopened, or is NotFound when the displayed node is off the tree. |
| TaskScreen.TaskView.SelectLine | src/components/views/task_view/task_view.rs:171-176 | The view's and the rows' selected line become n iff `1 <= n <= content_height`. Nothing else changes. |
| TaskScreen.TaskView.EnterPrevNode | src/components/views/task_view/task_view.rs:178-200 | Off the tree: Err(NotFound) and nothing changes. Otherwise the root becomes the root with the flags committed. The node at the path minus its last step is shown afresh: its rows, no timer, line 1, page 0, the slice bounds of page 0 and its height. One crumb is popped, and the result carries the parent's heading. |
| TaskScreen.TaskView.EnterNextNode | src/components/views/task_view/task_view.rs:202-220 | Off the tree: Err(NotFound) and nothing changes. Otherwise the flags are committed. If no summary row is selected, the result is Err("No subheading found on selected line") and the page and rows are kept. If one is, that child is shown afresh (rows, line 1, page 0, slice bounds, height), its crumb is pushed, and the result carries its heading. |
| TaskScreen.TaskView.AddBreadcrumb | src/components/views/task_view/task_view.rs:222-230 | Pushes the displayed heading's crumb. A node without a heading adds none. |
| TaskScreen.TaskView.PageForward | src/components/views/task_view/task_view.rs:237-243 | Goes to the next page when it starts before the end of the rows. Sets the slice bounds to `page_slice()` and selects line 1. The rows, the tree and the trail are unchanged. |
| TaskScreen.TaskView.PageBack | src/components/views/task_view/task_view.rs:244-249 | Goes to the previous page, and the first page stays first. Sets the slice bounds to `page_slice()` and the line to the content height. The rows, the tree and the trail are unchanged. |
| TaskScreen.TaskView.Navigate | src/components/views/task_view/task_view.rs:234-251 | 'j' is `select_line(line + 1)` and 'k' is `select_line(line - 1)`, each with exactly SelectLine's effect. 'J' and 'K' have exactly PageForward's and PageBack's effects. Any other key changes nothing. |
| TaskScreen.TaskView.Act | src/components/views/task_view/task_view.rs:253-259 | 's', ' ', 'b' and Enter have exactly the state change and result of the timer switch, ToggleTask, EnterPrevNode and EnterNextNode. Any other key gives `(None, "erm")` and changes nothing. |
| TaskScreen.TaskView.HandleEvents | src/components/views/task_view/task_view.rs:233-261 | Each of the eight keys has exactly the effect and result of its navigation or action. A navigation key returns `(None, "erm")`. Any other key changes nothing. |
| TaskScreen.TaskView.Event | src/components/main_view.rs:530-579 | Consumed iff the key is one of the eight bound keys. The first binding that matches (`Keys.FirstMatch`) has exactly the effect of its operation: down and up select, page down and page up page, and start, complete, back and enter act. Unbound keys change nothing. |
| TaskScreen.CommitIsSource | src/components/views/task_view/task_view.rs:153-168 | Committing a node that differs only in times and flags writes exactly that node. |
| InfoSubtypes.Index | src/info_subtype.rs:6-27 | Each of the nine variants has a discriminant below 9. |
| InfoSubtypes.FromIndex | src/info_subtype.rs:45-55 | `from_repr` succeeds iff the index is below 9, and inverts the discriminant. |
| InfoSubtypes.IndexInjective | src/info_subtype.rs:6-27 | Distinct variants have distinct discriminants. |
| InfoSubtypes.Prev | src/info_subtype.rs:45-49 | Steps to the previous variant, saturating at General. |
| InfoSubtypes.Next | src/info_subtype.rs:51-55 | Steps to the next variant, saturating at None. |
| InfoSubtypes.StepsUndo | src/info_subtype.rs:45-55 | `prev(next(t)) == t` except at the last variant, and `next(prev(t)) == t` except at the first. |
| InfoSubtypes.Message | src/info_subtype.rs:30-43 | General and None give "erm" and Save gives the fixed save message. Every other variant gives its phrase followed by the info. |
| InfoSubtypes.MessageKeepsInfo | src/info_subtype.rs:30-43 | The info is the message's suffix after the phrase. |
| LogTypes.SharedDisplayName | src/task_timer/views/log/log_type.rs:8-26 | Two different variants share a display name iff they are EnterSubheading and EnterParent ("Node Traverse"). |
| LogTypes.DisplayName | src/task_timer/views/log/log_type.rs:7-26 | A sub-kind is displayed as "Node Traverse" iff it is EnterSubheading or EnterParent. |
| LogTypes.Later | src/task_timer/views/log/log_type.rs:8-26 | Maps the older eight-variant enum into the later one, never onto Save, and None exactly onto None. |
| LogTypes.Message | src/task_timer/views/log/log_type.rs:29-41 | General and None give "erm". Every other variant gives its phrase followed by the info. |
| LogTypes.MessageAsLater | src/task_timer/views/log/log_type.rs:29-41 | The older `message` agrees with the later one on every variant. |
| LogTypes.ColorOf | src/task_timer/views/log/log_type.rs:52-58 | Blue iff INFO, Red iff ERROR. |
| LogFilters.Index | src/task_timer/views/log/filter.rs:14-23 | ALL, INFO and ERROR have discriminants 0, 1 and 2. |
| LogFilters.FromIndexOr | src/task_timer/views/log/filter.rs:26-36 | `from_repr(i).unwrap_or(f)` gives the variant at i when i < 3, else f. |
| LogFilters.Prev | src/task_timer/views/log/filter.rs:26-30 | Steps back and saturates at ALL. |
| LogFilters.Next | src/task_timer/views/log/filter.rs:32-36 | Steps forward and saturates at ERROR. |
| LogFilters.PrevUndoesNext | src/components/log_view.rs:32-42 | `prev(next(f)) == f` for every f other than ERROR, and `next(prev(f)) == f` for every f other than ALL. |
| LogFilters.Includes | src/task_timer/views/log/filter.rs:42-54 | ALL includes everything, INFO only INFO entries, ERROR only ERROR entries. |
| LogFilters.ExactlyOneNarrowTab | src/components/log_view.rs:48-60 | Every entry is in exactly one of the INFO and ERROR tabs, and in ERROR iff it is shown red. |
| LogBuffers.Appended | src/task_timer/views/log/log_view.rs:67-77 | The entry is appended at the end. The oldest entry is dropped when the length reaches the limit. |
| LogBuffers.AppendedStaysBelow | src/components/log_view.rs:192-204 | A buffer below the limit stays below it. |
| LogBuffers.Recent | src/task_timer/views/log/log_view.rs:79-89 | Returns the last min(size, len) entries in order. |
| LogBuffers.RecentAfterAppend | src/task_timer/logger.rs:14-32 | The recent window after logging is the old window with the new entry, cut to size. |
| Logging.Logger.constructor | src/task_timer/logger.rs:10-12 | Starts empty. |
| Logging.Logger.Log | src/task_timer/logger.rs:14-20 | Appends the record and drops the oldest once 20 are held. |
| Logging.Logger.RecentRecords | src/task_timer/logger.rs:22-32 | Returns the last min(4, len) records. |
| TimerLogView.LogView.constructor | src/task_timer/views/log/log_view.rs:51-57 | No logs, filter ALL. |
| TimerLogView.LogView.PrevFilter | src/task_timer/views/log/log_view.rs:59-61 | The filter becomes `Filter::prev`, and the logs are unchanged. |
| TimerLogView.LogView.NextFilter | src/task_timer/views/log/log_view.rs:63-65 | The filter becomes `Filter::next`, and the logs are unchanged. |
| TimerLogView.LogView.Log | src/task_timer/views/log/log_view.rs:67-77 | Appends and drops the oldest at 40, so at most 39 entries are kept. |
| TimerLogView.LogView.RecentEntries | src/task_timer/views/log/log_view.rs:79-89 | Returns the last min(15, len) entries. |
| TimerLogView.LogView.HandleEvents | src/task_timer/views/log/log_view.rs:91-99 | 'h' steps back and 'l' steps forward. Other keys change nothing. The result is always `Ok(None)`. |
| ComponentLogView.InfoKindsDistinct | src/components/log_view.rs:218-241 | The sub-filter kinds are pairwise distinct. |
| ComponentLogView.InfoKindsComplete | src/components/log_view.rs:218-241 | A subtype is listed iff some logged INFO entry has it. |
| ComponentLogView.Tabs | src/components/log_view.rs:218-241 | One tab per kind, selected iff it is the current sub-filter. |
| ComponentLogView.Position | src/components/log_view.rs:267-313 | Finds the first tab of a subtype, or reports that there is none. |
| ComponentLogView.NextIndex | src/components/log_view.rs:293-313 | Index (i+1) mod len. |
| ComponentLogView.PrevIndex | src/components/log_view.rs:267-291 | The previous index, wrapping from 0 to len-1. |
| ComponentLogView.IndexStepsUndo | src/components/log_view.rs:267-313 | Next and previous undo each other. |
| ComponentLogView.PositionOfDistinct | src/components/log_view.rs:267-313 | Among distinct tabs, the position of tab k's subtype is k. |
| ComponentLogView.LogView.constructor | src/components/log_view.rs:172-186 | No logs, filter ALL, no sub-filter, page 0. |
| ComponentLogView.LogView.AvailableSubfilters | src/components/log_view.rs:218-241 | The loop computes the tabs: empty without a sub-filter, else one per distinct INFO subtype in first-occurrence order. |
| ComponentLogView.LogView.Update | src/components/log_view.rs:188-190 | Refreshes the tabs and nothing else. |
| ComponentLogView.LogView.Log | src/components/log_view.rs:192-204 | Appends and drops the oldest at 100. `entry_len` is the length before trimming. |
| ComponentLogView.LogView.RecentEntries | src/components/log_view.rs:206-216 | Returns the last min(15, len) entries. |
| ComponentLogView.LogView.PrevFilter | src/components/log_view.rs:243-253 | The filter becomes the previous one. The sub-filter becomes General (selected) iff the new filter is INFO, else None. The logs and the paginator are unchanged. |
| ComponentLogView.LogView.NextFilter | src/components/log_view.rs:255-265 | The filter becomes the next one, with the same sub-filter rule and nothing else changed. |
| ComponentLogView.LogView.PrevSubfilter | src/components/log_view.rs:267-291 | With no sub-filter, nothing changes. If the current subtype is among the tabs, it becomes the previous tab with wrap-around, and the logs are kept. Otherwise one ERROR entry is appended and the entry count grows by one. |
| ComponentLogView.LogView.NextSubfilter | src/components/log_view.rs:293-313 | The next tab modulo the count, with the same no-op and error cases. |
| ComponentLogView.LogView.Event | src/components/log_view.rs:360-392 | Consumed iff the key is bound here. The first binding that matches (`Keys.FirstMatch`) has exactly the effect of its operation: left and right step the filter, the sub-filter keys step the tab, and the page keys move the page. Unbound keys change nothing. |
| ComponentLogView.SubfilterStepsUndo | src/components/log_view.rs:267-313 | Stepping to the next sub-filter and back returns to the same tab. |
| Popups.ConfirmQuitKey | src/components/popups/popup.rs:20-26 | 'y' quits, 'n' resumes, and any other key keeps the prompt. |
| Popups.HandleEvents | src/components/popups/popup.rs:13-18 | Without a popup the session keeps running. The quit prompt follows `confirm_quit`. |
| Sessions.HandlePromptEvent | src/task_timer/session_manager.rs:224-230 | Quits iff 'y' or Esc, resumes iff 'n', and otherwise keeps awaiting the prompt. |
| Sessions.PromptAgreesWithPopup | src/task_timer/session_manager.rs:224-230 | The session's prompt answers every key as the popup's `confirm_quit` does, except Esc, which quits the session but keeps the popup's prompt open. |
| Sessions.SessionManager.constructor | src/task_timer/session_manager.rs:30-42 | Line 1, running, no popup. |
| Sessions.SessionManager.HandleNormalEvents | src/task_timer/session_manager.rs:172-220 | From any line >= 1, including one below a content height that shrank on redraw: 'j' moves down one line iff the line is below `content_height`, and 'k' moves up one line iff it is above 1. 'o' and 'c' reset to line 1, and other keys leave the line. A line inside `1..max(1, content_height)` stays inside. Esc and 'q' raise the popup and await the prompt. The result is never Quitting. |
| Sessions.SessionManager.HandleEvents | src/task_timer/session_manager.rs:154-170 | From any line >= 1: non-key events keep the state, and Quitting is absorbing. At the prompt the answer is taken, and the popup is closed when it resumes. A line inside the content stays inside. |
| Sessions.SessionManager.Step | src/task_timer/session_manager.rs:145-149 | The event's result becomes the session state. |
| NaryTree.NaryNode.constructor | src/task_timer/nary_tree/node.rs:9-14 | A new node holds the value and no children. |
| NaryTree.NaryNode.Insert | src/task_timer/nary_tree/node.rs:16-18 | Appends the child at the end. |
| NaryTree.Indent | src/task_timer/nary_tree/node.rs:24-31 | The indent is two spaces per level of depth. |
| NaryTree.LinesAppend | src/task_timer/nary_tree/node.rs:24-31 | Printing a concatenation of entries prints both parts in order. |
| NaryTree.PrintTreeIsPreorder | src/task_timer/nary_tree/node.rs:24-31 | `print_tree` prints the pre-order listing of (depth, value), one indented line each. |
| NaryTree.ChildrenPrintIsPreorder | src/task_timer/nary_tree/node.rs:28-30 | The children print as the pre-order listing of each child in turn. |
| NaryTree.PreorderShape | src/task_timer/nary_tree/node.rs:24-31 | The listing has one entry per node, starts with the node at its depth, and lists every later entry deeper. |
| NaryTree.ChildrenPreorderShape | src/task_timer/nary_tree/node.rs:28-30 | The children's listing has one entry per descendant, all deeper than the parent. |
| TaskOverviews.ZipFlags | src/task_timer/views/home/tasks_overview.rs:20-25 | The zip pairs `completed_tasks[i]` with `content[i]`, truncated to the shorter list. |
| TaskOverviews.Headings | src/task_timer/views/home/tasks_overview.rs:26 | There is at most one subheading per child. |
| TaskOverviews.HeadingsLength | src/task_timer/views/home/tasks_overview.rs:26 | When every child has a heading there are exactly as many subheadings as children. |
| TaskOverviews.HeadingsOfHeaded | src/task_timer/views/home/tasks_overview.rs:26 | A heading is listed iff some child has it. Headless children are skipped. |
| TaskOverviews.NewOverview | src/task_timer/views/home/tasks_overview.rs:19-36 | Tasks are the zip, subheadings the children's headings, the selected line is 1, and the height is the task and subheading count cast to u16. |
| TaskOverviews.OverviewHeight | src/task_timer/views/home/tasks_overview.rs:28 | On a well-formed node whose children all have headings, the content height is the number of tasks plus the number of children, cast to u16, and exactly that number when it fits. |
| HomeTimers.TaskEntries | src/task_timer/views/home/timers.rs:27-36 | The pairs `(completed_tasks[i], content_times[i])`, truncated to the shorter list. |
| HomeTimers.ChildEntries | src/task_timer/views/home/timers.rs:112-121 | One rolled-up entry per child, in order. |
| HomeTimers.ExtractEntry | src/task_timer/views/home/timers.rs:123-135 | The recursive loop computes the rollup. |
| HomeTimers.SubheadingTimes | src/task_timer/views/home/timers.rs:112-121 | The loop computes the child entries. |
| HomeTimers.ChildEntryMatchesSubtree | src/task_timer/views/home/timers.rs:123-135 | A child's entry sums all times in its subtree. It is completed iff all tasks there are. |
| HomeTimers.Tick | src/task_timer/views/home/timers.rs:51-62 | One second more on the active row only. |
| HomeTimers.Seconds | src/task_timer/views/home/timers.rs:51-62 | The durations of the rows, in order. |
| HomeTimers.TickAddsOneSecond | src/task_timer/views/home/timers.rs:51-62 | A tick raises the total by one second. |
| HomeTimers.Timers.constructor | src/task_timer/views/home/timers.rs:27-49 | Lines are the task pairs then the child entries. `task_offset` is the pair count and the height is the pairs plus the children (u16). No timer runs, and line 1 is selected. |
| HomeTimers.Timers.UpdateTime | src/task_timer/views/home/timers.rs:51-62 | Ticks the active row only. |
| HomeTimers.Timers.TryActivate | src/task_timer/views/home/timers.rs:64-88 | Stops a running timer. Otherwise it errors on subheading or completed rows without starting one, or starts the timer on the selected row with the row index cast to u16. While the page start and the selected row fit in a u16, the started timer is active on the selected line. |
| HomeTimers.Timers.ActiveOnLine | src/task_timer/views/home/timers.rs:90-97 | For a page start below 65536, where the cast leaves it unchanged: true iff a timer runs and the selected line is that row's line on the page. |
| HomeTimers.Timers.TaskSlice | src/task_timer/views/home/timers.rs:99-101 | The first `task_offset` lines. |
| HomeTimers.Timers.SubheadingSlice | src/task_timer/views/home/timers.rs:103-105 | The lines from `task_offset` on. |
| HomeTimers.Timers.SliceBounds | src/task_timer/views/home/timers.rs:107-110 | Sets the page bounds and nothing else. |
| HomeTimers.NewSlices | src/task_timer/views/home/timers.rs:27-49 | On a new table, the task slice is the pairs and the subheading slice is the child entries. |
| HomeView.HeadingEntry | src/task_timer/views/home/main_view.rs:69-80 | The first entry is the node's heading, or the placeholder for the root. |
| HomeView.TaskEntries | src/task_timer/views/home/main_view.rs:82-87 | `Task(i)` for each content index, in order. |
| HomeView.ChildEntries | src/task_timer/views/home/main_view.rs:89-102 | One `ChildHeading` per child, in order, each with its found path. |
| HomeView.CollectDisplayData | src/task_timer/views/home/main_view.rs:58-105 | The loops compute the display list. |
| HomeView.OccursChild | src/task_timer/views/home/main_view.rs:90-96 | A child of a node on the tree is on the tree. |
| HomeView.DisplayedFailsOffTree | src/task_timer/views/home/main_view.rs:62-67 | Collecting fails iff the node is not on the tree. |
| HomeView.CountsAppend | src/task_timer/views/home/main_view.rs:69-102 | Task and child counts add up over concatenation. |
| HomeView.TaskEntriesCounts | src/task_timer/views/home/main_view.rs:82-87 | The task entries are `content.len()` tasks and no child headings. |
| HomeView.ChildEntriesCounts | src/task_timer/views/home/main_view.rs:89-102 | The child entries list the children's paths and no tasks. |
| HomeView.DisplayedShape | src/task_timer/views/home/main_view.rs:58-105 | The length is 1 + `content.len()` + `children.len()`. The tasks are the content count, the child paths are the children's paths, and the last heading is the node's. |
| HomeView.LinesShape | src/task_timer/views/home/main_view.rs:58-105 | A heading followed by the task lines and then the child lines counts only the tasks. Its child paths are those of the child lines, and its last heading is the leading heading. |
| HomeView.SubheadingPath | src/task_timer/views/home/main_view.rs:138-158 | Yields the k-th ChildHeading's path iff `pos == task_count + k + 1`, else None. |
| HomeView.SubheadingPathLeadsToChild | src/task_timer/views/home/main_view.rs:138-158 | The path on child k's row resolves to child k. |
| HomeView.MainView.constructor | src/task_timer/views/home/main_view.rs:43-56 | Empty tree, no display data, line 1. |
| HomeView.MainView.UpdateDisplayData | src/task_timer/views/home/main_view.rs:107-123 | Stores the collected display data and sets `content_height` to its length - 1, or fails off the tree. |
| HomeView.MainView.Update | src/task_timer/views/home/main_view.rs:125-136 | Replaces the root, the display data and the selected line, and nothing else. |
| HomeView.MainView.GetSubheadingPath | src/task_timer/views/home/main_view.rs:138-158 | The loops compute the subheading path. |
| HomeView.MainView.SelectLine | src/task_timer/views/home/main_view.rs:178-182 | The selected line becomes n iff `1 <= n <= content_height`. Nothing else changes. |
| HomeView.MainView.AddBreadcrumb | src/task_timer/views/home/main_view.rs:235-247 | Pushes the crumb of the last heading in the display data. |
| HomeView.MainView.EnterPrevNode | src/task_timer/views/home/main_view.rs:184-209 | If the displayed node or its parent path does not resolve, the matching error is returned and nothing changes. Otherwise the parent is displayed. Its lines replace the old ones, the height is their count minus one, line 1 is selected and one crumb is popped. If its lines cannot be collected, the error is returned and the lines are kept. |
| HomeView.MainView.EnterNextNode | src/task_timer/views/home/main_view.rs:211-233 | If no child line is selected or its path leads nowhere, the matching error is returned and nothing changes. Otherwise the child is displayed in the same way, and the last heading of its lines is pushed as a crumb. |
| HomeView.MainView.HandleEvents | src/task_timer/views/home/main_view.rs:160-176 | 'j' and 'k' are `select_line(line ± 1)` and return Ok. 'b' and Enter have exactly the effect and result of EnterPrevNode and EnterNextNode. Any other key returns Ok and changes nothing. |
| TaskOutline.PathPosition | src/task_timer/views/tasks.rs:166-196 | The first entry with the path, or None iff no entry has it. |
| TaskOutline.LinePosition | src/task_timer/views/tasks.rs:200-205 | The first entry on the line, or None iff no entry is on it. |
| TaskOutline.Upserted | src/task_timer/views/tasks.rs:166-196 | Replaces the entry with the same path, or appends a new one. |
| TaskOutline.UpsertKeepsPathsUnique | src/task_timer/views/tasks.rs:166-196 | The upsert keeps paths unique and leaves exactly the new entry at its path, with other paths' entries unchanged. |
| TaskOutline.CollapseMatchesDescendants | src/task_timer/views/tasks.rs:208-222 | For a non-root entry, the depth test matches exactly the proper descendants. |
| TaskOutline.CollapseMatchesAllUnderRoot | src/task_timer/views/tasks.rs:208-222 | For the empty path, the test matches every path. |
| TaskOutline.CollapseMatches | src/task_timer/views/tasks.rs:208-222 | The depth test holds iff the found path is a prefix of the entry's path and the entry is strictly deeper, or both paths are empty. |
| TaskOutline.Collapsed | src/task_timer/views/tasks.rs:200-225 | Flips the found entry and every matched entry. |
| TaskOutline.CollapseFlipsSubtree | src/task_timer/views/tasks.rs:200-225 | Visibility changes exactly on the found entry and its descendants. Line, path and task lines never change. |
| TaskOutline.CollapseTwiceRestores | src/task_timer/views/tasks.rs:200-225 | Collapsing the same entry twice restores the table. |
| TaskOutline.FirstIndex | src/task_timer/views/tasks.rs:227-242 | The first index of a line in a task-line list, or None iff absent. |
| TaskOutline.TaskMatchesSound | src/task_timer/views/tasks.rs:227-242 | There is a match iff some entry's task lines contain the line. Each match names such an entry and the FIRST index of the line in its task lines, as `position` gives it. |
| TaskOutline.TaskView.constructor | src/task_timer/views/tasks.rs:35-47 | Line 2 and empty tables. |
| TaskOutline.TaskView.UpdateNodeData | src/task_timer/views/tasks.rs:166-196 | Upserts the node's entry (line, visible, task lines) by path, keeping paths unique. |
| TaskOutline.TaskView.TryCollapse | src/task_timer/views/tasks.rs:200-225 | Does nothing when no entry is on the line. Otherwise flips that entry's subtree. |
| TaskOutline.TaskView.SelectedTask | src/task_timer/views/tasks.rs:227-242 | Some iff an entry's task lines contain the selected line. It carries that entry's path and the first index holding the line: no earlier task line of the entry equals it. |
| TaskOutline.TaskView.ToggleNodes | src/task_timer/views/tasks.rs:244-248 | Sets every entry's visibility to v. |
| TimerColumn.LinePosition | src/task_timer/timer_view.rs:63-67 | The first entry on the line, or None iff no entry is on it. |
| TimerColumn.Activated | src/task_timer/timer_view.rs:72-78 | Flips the selected entry and turns every other entry off. |
| TimerColumn.ActiveIndices | src/task_timer/timer_view.rs:82-84 | The positions of the running timers: strictly increasing, each one running, and every running position among them. |
| TimerColumn.ActiveTimes | src/task_timer/timer_view.rs:82-84 | The running timers in table order: entry k is the timer at the k-th position of `ActiveIndices`, and there are as many entries as running positions. |
| TimerColumn.ActiveTimesExactly | src/task_timer/timer_view.rs:82-84 | A timer is listed iff it is in the table and running. |
| TimerColumn.ActivationLeavesOneTimer | src/task_timer/timer_view.rs:72-78 | After activation at most one entry is active, and at most one time is listed. |
| TimerColumn.AtMostOneActiveListsOne | src/task_timer/timer_view.rs:82-84 | With at most one entry active, at most one time is listed. |
| TimerColumn.Recorded | src/task_timer/timer_view.rs:154-168 | Appends the row unless an equal row exists. |
| TimerColumn.RecordBesideRunningTimer | src/task_timer/timer_view.rs:154-168 | A stopped copy of a running row is appended as a second row on the same line, because equality compares `active`. |
| TimerColumn.RecordRows | src/task_timer/timer_view.rs:125-136 | Recording the task rows only extends the table. |
| TimerColumn.RecordRowsHasRows | src/task_timer/timer_view.rs:125-136 | Every task row of the node ends up in the table, which grows by at most the number of tasks. |
| TimerColumn.TimerView.constructor | src/task_timer/timer_view.rs:28-39 | Line 1, an empty tree and empty tables. |
| TimerColumn.TimerView.TryActivate | src/task_timer/timer_view.rs:62-80 | Does nothing when no entry is on the line or the line is completed. Otherwise activates it. |
| TimerColumn.TimerView.UpdateTimeData | src/task_timer/timer_view.rs:154-168 | Records the row as above. |
| TimerColumn.TimerView.DrawTimers | src/task_timer/timer_view.rs:105-144 | The heading total is the sum of the node's times. The node is one line tall, plus a line per task when content is drawn. Drawn tasks are recorded. |
| TimerColumn.FirstEqual | src/task_timer/timer_view.rs:162-166 | An index holding a row equal to e, with no equal row before it: the first, as `position` returns. |
| MarkdownOutline.LinePosition | src/task_timer/markdown_view.rs:49-61 | The first entry on the line, or None iff no entry is on it. |
| MarkdownOutline.PathPosition | src/task_timer/markdown_view.rs:189-202 | The first entry with the path, or None iff no entry has it. |
| MarkdownOutline.Collapsed | src/task_timer/markdown_view.rs:49-61 | Flips only the first entry on the line. With none, the table is unchanged. |
| MarkdownOutline.CollapseTwiceRestores | src/task_timer/markdown_view.rs:49-61 | Collapsing twice restores the table. |
| MarkdownOutline.MarkdownView.constructor | src/task_timer/markdown_view.rs:29-43 | Line 1, an empty tree and an empty table. |
| MarkdownOutline.MarkdownView.Update | src/task_timer/markdown_view.rs:45-47 | Replaces the tree only. |
| MarkdownOutline.MarkdownView.TryCollapse | src/task_timer/markdown_view.rs:49-61 | Collapses the selected line's entry. |
| MarkdownOutline.MarkdownView.AddNewNode | src/task_timer/markdown_view.rs:189-202 | Appends a visible entry iff no entry has the path, and returns whether it did. Paths stay unique. |
| MarkdownOutline.MarkdownView.UpdateNodeData | src/task_timer/markdown_view.rs:174-187 | A new path is added. An existing entry's line changes and nothing else. Paths stay unique. |
| MarkdownOutline.RecordedOnce | src/task_timer/markdown_view.rs:174-202 | After the update, exactly one entry has the path. |
| MarkdownOutline.HeadingTotal | src/task_timer/markdown_view.rs:209-227 | The heading total is the sum of the node's times whether or not content is visible, and a line is drawn per task only when visible. |

## Left out

- Rendering is not modelled: widgets, layout, colours beyond `LogType::color`, styling, `title`, and `Node::print` (console output).
- Terminal I/O is not modelled: the event loop, polling, file loading and saving, serde, the file watcher and the window glue (`components/window.rs`, `task_timer/window.rs`). Key events arrive as parameters.
- The wall clock is not modelled: `TimeStamp::new` reads it, so stamps are parameters.
- u16 and usize overflow at the top of the range is not modelled. Counters are unbounded `nat`. Where the source truncates with `as u16`, the model uses `Pagination.AsU16`, except for the members listed below.
- Subtractions that underflow in the source (line - 1 at line 0, the `page_start + selected_line - 1` index at 0) become preconditions, `requires selectedLine >= 1` and the like. The panic or wrap-around in those cases is not modelled.
- `DocTree.UpdateNode`: the source's `update_node` is not in the repository. The model copies the times, flags and total time, and does not model any length check it may make.
- `TaskScreen.TaskView.GetSubheading`: the source subtracts before its guard (`task_view.rs:95`) and can underflow. The model states the guarded intent in `TaskScreen.Subheading`.
- `HomeTimers.Timers.constructor`: the u16 sum at `timers.rs:37` wraps in the model, but panics in a debug build of the source.
- `HomeView.MainView.UpdateDisplayData`: `display_data.len() - 1` is modelled without the u16 cast.
- `HomeTimers.Timers.TryActivate`: the stored index is cast to u16 (`timers.rs:81`). The post-state "active on the selected line" is stated only while `page_start + selected_line` fits in a u16, because `active_on_line` casts the page start too.
- `TaskRows.Tasks.TryActivate`: the index is stored without the `as u16` cast of `task_view/tasks.rs:177` and `components/main_view.rs:217`, so row indices of 65536 and above are not truncated in the model.
- `TaskRows.Tasks.ActiveOnLine`: the page start is compared without the `as u16` cast of `task_view/tasks.rs:153` and `components/main_view.rs:193`, for the same reason.
- `TaskRows.Extractable`: the model assumes the node's `content` and `content_times` are at least as long as `completed_tasks`, and that every node below it has a heading. `TaskRows.Tasks.constructor` and the row functions require it. The source panics at `task_view/tasks.rs:72-75` (an index past the end) and at `task_view/tasks.rs:113` (`unwrap` of a missing heading). The panics are not modelled.
- `TaskRows.ExtractEntry`: requires `AllHeaded(node)`, for the same `unwrap` at `task_view/tasks.rs:113`. The panic on a headless child is not modelled.
- `MarkdownSerialiser.Indexable`: the model assumes every node has a completion flag for each of its tasks. `MarkdownSerialiser.PushNode` and `MarkdownSerialiser.ExportContents` require it. The source panics at `markdown_serialiser.rs:24` when a flag is missing; the panic is not modelled.
- `TaskScreen.TaskView.Valid`: the model assumes aligned task lists (`WellFormed`) and headed nodes below the root (`ChildrenHeaded`) in the root and in the displayed node. The panics that `Tasks::new` would raise without them are not modelled.
- `TaskScreen.TaskView.UpdateDisplayData`: requires `WellFormed(newNode) && ChildrenHeaded(newNode)`. The panic that `Tasks::new` raises on a misaligned or headless node (`task_view/tasks.rs:72-75`, `113`) is not modelled.
- `TaskOutline.CollapseMatches`: for an entry with an empty path, the depth test matches every entry and flips the found entry twice. The root is never recorded, so this case does not arise and is not claimed as a defect.
- `TimerColumn.TimerView.UpdateTimeData` compares all four fields, so a running timer gains a stopped twin row (`TimerColumn.RecordBesideRunningTimer`). This is stated as behaviour, not claimed as a defect.
- `TaskOutline.TaskView.UpdateNodeData`: the source panics when the node is not in the content tree (`views/tasks.rs:168-170`). The model requires the node to be found and does not model the panic.
- `MarkdownOutline.MarkdownView.UpdateNodeData`: the source panics when the node is not in the content tree (`markdown_view.rs:176-178`). The model requires the node to be found and does not model the panic.
- `MarkdownOutline.HeadingTotal`: the source asserts that a node has as many task times as task texts (`markdown_view.rs:205`). The model requires `|content| == |contentTimes|` and does not model the panic on unequal lengths.
- `TimerColumn.TimerView.DrawTimers`: the source asserts the same equal lengths (`timer_view.rs:113`). The model requires them and does not model the panic on unequal lengths.
- `TaskOutline.TaskView.SelectedTask`: the source asserts that at most one entry holds the selected line (`views/tasks.rs:239`). The model requires it and does not model the failed assertion.
- `Pagination.Paginator.ContentHeight`: modelled as written. On a later full page the height is `offset + page_size`, more than the page holds (`Pagination.ContentHeightOnLaterFullPage`). This is stated as behaviour; the model does not decide which height was intended.
- The two log views keep their entry paginator. Its page slicing is `Pagination.Window`, and rendering the page is not modelled.
- `task_timer/views/home/navigation_bar.rs`, `components/session_manager.rs` and the older `task_timer/info_subtype.rs` are not part of this model. They are context revisions that the core does not call.

## Findings

| source | as written | input that shows it | evidently intended | confidence | as-written member | corrected member |
|---|---|---|---|---|---|---|
| src/task_timer/timer_view.rs:146-152, src/task_timer/markdown_view.rs:237-243 | minutes = total_seconds / 60, not reduced modulo 60 | 3600 seconds prints "[01:60:00] " | minutes = (total_seconds % 3600) / 60, as in `task.rs:25`, so the clock reads back as the number of seconds | not executed | DurationFormat.FormatTimeAsWrittenOneHour | DurationFormat.FormatTimeRoundTrip |
