/** The rows a task view shows for one node (`src/task_timer/views/task_view/tasks.rs`,
    with `Task` from `task.rs` beside it): one row per task, then one summary
    row per child heading, and the single running timer over those rows. */
module TaskRows {
  import opened Wrappers
  import opened DocTree
  import IS = InfoSubtypes

  /** A displayed row: its text, the seconds spent and whether it is done.
      The row's style is presentation and is not modelled. */
  datatype Task = Task(name: string, duration: nat, completed: bool)

  /** The node's task lists can be read at every index of `completed_tasks`,
      and every heading below it exists: what `extract_tasks` and the
      `unwrap` in `extract_entry` need. */
  predicate Extractable(n: Node)
  {
    |n.content| >= |n.completedTasks| && |n.contentTimes| >= |n.completedTasks| &&
    forall i :: 0 <= i < |n.children| ==> AllHeaded(n.children[i])
  }

  /** Row `i` of the node's own tasks. */
  function TaskRow(n: Node, i: nat): (r: Task)
    requires i < |n.completedTasks| <= |n.content| && |n.completedTasks| <= |n.contentTimes|
    ensures r.name == n.content[i] && r.duration == n.contentTimes[i] && r.completed == n.completedTasks[i]
  {
    Task(n.content[i], n.contentTimes[i], n.completedTasks[i])
  }

  /** The task rows, one per completion flag, in index order. */
  function TaskRowsOf(n: Node): (r: seq<Task>)
    requires Extractable(n)
    ensures |r| == |n.completedTasks|
    ensures forall i :: 0 <= i < |r| ==> r[i] == TaskRow(n, i)
  {
    seq(|n.completedTasks|, i requires 0 <= i < |n.completedTasks| => TaskRow(n, i))
  }

  /** The summary row of a child heading: its heading text with the rolled-up
      time and completion of its whole subtree. */
  function Summary(n: Node): (r: Task)
    requires n.heading.Some?
    ensures r.name == n.heading.value
    ensures r.duration == Rollup(n).duration && r.completed == Rollup(n).completed
  {
    Task(n.heading.value, Rollup(n).duration, Rollup(n).completed)
  }

  /** One summary row per child, in child order. */
  function SummariesOf(n: Node): (r: seq<Task>)
    requires Extractable(n)
    ensures |r| == |n.children|
    ensures forall i :: 0 <= i < |r| ==> r[i] == Summary(n.children[i])
  {
    seq(|n.children|, i requires 0 <= i < |n.children| => Summary(n.children[i]))
  }

  /** All rows `Tasks::new` lays out: tasks first, then the summaries. */
  function Rows(n: Node): seq<Task>
    requires Extractable(n)
  {
    TaskRowsOf(n) + SummariesOf(n)
  }

  /** `extract_tasks`. */
  method ExtractTasks(node: Node) returns (tasks: seq<Task>)
    requires Extractable(node)
    ensures tasks == TaskRowsOf(node)
  {
    tasks := [];
    var idx := 0;
    while idx < |node.completedTasks|
      invariant 0 <= idx <= |node.completedTasks|
      invariant tasks == TaskRowsOf(node)[..idx]
    {
      tasks := tasks + [Task(node.content[idx], node.contentTimes[idx], node.completedTasks[idx])];
      idx := idx + 1;
    }
  }

  /** `subheading_times`. */
  method SubheadingTimes(node: Node) returns (entries: seq<Task>)
    requires Extractable(node)
    ensures entries == SummariesOf(node)
  {
    entries := [];
    var i := 0;
    while i < |node.children|
      invariant 0 <= i <= |node.children|
      invariant entries == SummariesOf(node)[..i]
    {
      var fullEntry := ExtractEntry(node.children[i]);
      entries := entries + [fullEntry];
      i := i + 1;
    }
  }

  /** `extract_entry`: the node's own task time plus, child by child, the
      children's rolled-up times; done when all own tasks and all children
      are done.  Every heading in the subtree is unwrapped. */
  method ExtractEntry(node: Node) returns (task: Task)
    requires AllHeaded(node)
    ensures task == Summary(node)
    decreases node
  {
    var completedNode := AllTrue(node.completedTasks);
    var completedSubheadings := true;
    var entryTime := Sum(node.contentTimes);
    var i := 0;
    while i < |node.children|
      invariant 0 <= i <= |node.children|
      invariant entryTime == Sum(node.contentTimes) + ChildrenDuration(node, i)
      invariant completedSubheadings == ChildrenCompleted(node, i)
    {
      var entry := ExtractEntry(node.children[i]);
      entryTime := entryTime + entry.duration;
      completedSubheadings := completedSubheadings && entry.completed;
      i := i + 1;
    }
    task := Task(node.heading.value, entryTime, completedNode && completedSubheadings);
  }

  /** A summary row's time is every task time in the subtree, and it is done
      exactly when every task in the subtree is. */
  lemma SummaryMatchesSubtree(n: Node)
    requires n.heading.Some?
    ensures Summary(n).duration == Sum(SubtreeTimes(n))
    ensures Summary(n).completed <==> AllTrue(SubtreeFlags(n))
  {
    RollupMatchesSubtree(n);
  }

  /** The row list with one more second on row `a`. */
  function Tick(lines: seq<Task>, a: nat): (r: seq<Task>)
    requires a < |lines|
    ensures |r| == |lines| && r[a].duration == lines[a].duration + 1
    ensures forall i :: 0 <= i < |lines| && i != a ==> r[i] == lines[i]
  {
    lines[a := lines[a].(duration := lines[a].duration + 1)]
  }

  function Durations(lines: seq<Task>): (r: seq<nat>)
    ensures |r| == |lines| && forall i :: 0 <= i < |lines| ==> r[i] == lines[i].duration
  {
    seq(|lines|, i requires 0 <= i < |lines| => lines[i].duration)
  }

  /** A tick adds exactly one second to the total of the rows. */
  lemma TickAddsOneSecond(lines: seq<Task>, a: nat)
    requires a < |lines|
    ensures Sum(Durations(Tick(lines, a))) == Sum(Durations(lines)) + 1
  {
    assert Durations(Tick(lines, a)) == Durations(lines)[a := lines[a].duration + 1];
    SumUpdate(Durations(lines), a, lines[a].duration + 1);
  }

  /** The row list with row `idx`'s completion flipped. */
  function Toggled(lines: seq<Task>, idx: nat): (r: seq<Task>)
    requires idx < |lines|
    ensures |r| == |lines| && r[idx].completed == !lines[idx].completed
    ensures r[idx].name == lines[idx].name && r[idx].duration == lines[idx].duration
    ensures forall i :: 0 <= i < |lines| && i != idx ==> r[i] == lines[i]
  {
    lines[idx := lines[idx].(completed := !lines[idx].completed)]
  }

  /** The rows of the view over one node and the timer that runs on them. */
  class Tasks {
    var lines: seq<Task>
    var taskOffset: nat
    var selectedLine: nat
    var contentHeight: nat
    var totalTime: nat
    var activeTime: Option<nat>
    var pageStart: nat
    var pageEnd: nat

    /** The task rows precede the summaries, and a running timer is always on
        a task row. */
    predicate Valid()
      reads this
    {
      taskOffset <= |lines| && (activeTime.Some? ==> activeTime.value < taskOffset)
    }

    /** `Tasks::new`. */
    constructor (node: Node)
      requires Extractable(node)
      ensures lines == Rows(node) && taskOffset == |node.completedTasks|
      ensures selectedLine == 1 && contentHeight == taskOffset % 65536
      ensures totalTime == 0 && activeTime == None && pageStart == 0 && pageEnd == 0
      ensures Valid()
    {
      var tasks := ExtractTasks(node);
      var subheadings := SubheadingTimes(node);
      lines := tasks + subheadings;
      taskOffset := |tasks|;
      selectedLine := 1;
      contentHeight := |tasks| % 65536;
      totalTime := 0;
      activeTime := None;
      pageStart := 0;
      pageEnd := 0;
    }

    /** `Tasks::default()`: no rows, line 0 selected, no timer. */
    constructor Default()
      ensures lines == [] && taskOffset == 0 && selectedLine == 0 && contentHeight == 0
      ensures totalTime == 0 && activeTime == None && pageStart == 0 && pageEnd == 0
      ensures Valid()
    {
      lines := [];
      taskOffset := 0;
      selectedLine := 0;
      contentHeight := 0;
      totalTime := 0;
      activeTime := None;
      pageStart := 0;
      pageEnd := 0;
    }

    /** `update`: records the selected line (the row styling it also sets is
        presentation). */
    method Update(line: nat)
      modifies this
      ensures selectedLine == line
      ensures lines == old(lines) && taskOffset == old(taskOffset) && contentHeight == old(contentHeight)
      ensures totalTime == old(totalTime) && activeTime == old(activeTime)
      ensures pageStart == old(pageStart) && pageEnd == old(pageEnd)
    {
      selectedLine := line;
    }

    /** `task_slice`: the rows before the first summary. */
    function TaskSlice(): (r: seq<Task>)
      reads this
      requires taskOffset <= |lines|
      ensures |r| == taskOffset && r <= lines
    {
      lines[..taskOffset]
    }

    /** `active_on_line`: the timer runs on the selected row of the page. */
    predicate ActiveOnLine()
      reads this
      ensures ActiveOnLine() <==> activeTime.Some? && selectedLine == activeTime.value - pageStart + 1
    {
      activeTime.Some? && activeTime.value == pageStart + selectedLine - 1
    }

    /** `toggle_task`: flips one row, reports which way, and stops the timer
        if it was running on the selected row. */
    method ToggleTask(idx: nat) returns (info: IS.InfoSubType)
      requires idx < |lines|
      modifies this
      ensures lines == Toggled(old(lines), idx)
      ensures info == if old(lines[idx].completed) then IS.UncompleteTask else IS.CompleteTask
      ensures activeTime == if old(ActiveOnLine()) then None else old(activeTime)
      ensures taskOffset == old(taskOffset) && selectedLine == old(selectedLine)
      ensures contentHeight == old(contentHeight) && totalTime == old(totalTime)
      ensures pageStart == old(pageStart) && pageEnd == old(pageEnd)
      ensures old(Valid()) ==> Valid()
    {
      if ActiveOnLine() {
        activeTime := None;
      }
      if lines[idx].completed {
        info := IS.UncompleteTask;
      } else {
        info := IS.CompleteTask;
      }
      lines := lines[idx := lines[idx].(completed := !lines[idx].completed)];
    }

    /** `slice_bounds`. */
    method SliceBounds(startIdx: nat, endIdx: nat)
      modifies this
      ensures pageStart == startIdx && pageEnd == endIdx
      ensures lines == old(lines) && taskOffset == old(taskOffset) && selectedLine == old(selectedLine)
      ensures contentHeight == old(contentHeight) && totalTime == old(totalTime)
      ensures activeTime == old(activeTime)
    {
      pageStart := startIdx;
      pageEnd := endIdx;
    }

    /** `try_activate`: a running timer is stopped whatever the selection;
        otherwise the timer starts on the selected row if it is a task row
        that is not done.  On success the selected line is reported. */
    method TryActivate() returns (r: Result<(IS.InfoSubType, nat), string>)
      requires Valid()
      requires activeTime.None? ==> pageStart + selectedLine >= 1
      modifies this
      ensures Valid()
      ensures lines == old(lines) && taskOffset == old(taskOffset) && selectedLine == old(selectedLine)
      ensures contentHeight == old(contentHeight) && totalTime == old(totalTime)
      ensures pageStart == old(pageStart) && pageEnd == old(pageEnd)
      ensures old(activeTime).Some? ==> r == Ok((IS.StopTimer, selectedLine)) && activeTime == None
      ensures old(activeTime).None? ==>
        var pos := pageStart + selectedLine - 1;
        if pos >= taskOffset then
          r == Err("Cannot start a subheading time") && activeTime == None
        else if lines[pos].completed then
          r == Err("Cannot start a time on a completed task") && activeTime == None
        else
          r == Ok((IS.StartTimer, selectedLine)) && activeTime == Some(pos)
      ensures old(activeTime).None? && r.Ok? ==> ActiveOnLine()
    {
      if activeTime.Some? {
        activeTime := None;
        return Ok((IS.StopTimer, selectedLine));
      }
      var timerPos := pageStart + selectedLine - 1;
      if timerPos >= taskOffset {
        return Err("Cannot start a subheading time");
      }
      if !lines[timerPos].completed {
        activeTime := Some(timerPos);
      } else {
        return Err("Cannot start a time on a completed task");
      }
      return Ok((IS.StartTimer, selectedLine));
    }

    /** `update_time`: one second more on the row the timer runs on, if any.
        The branch for a timer beyond the task rows cannot be taken while the
        timer only ever starts on task rows. */
    method UpdateTime()
      requires Valid()
      modifies this
      ensures Valid()
      ensures old(activeTime).Some? ==> lines == Tick(old(lines), old(activeTime).value)
      ensures old(activeTime).None? ==> lines == old(lines)
      ensures taskOffset == old(taskOffset) && selectedLine == old(selectedLine)
      ensures contentHeight == old(contentHeight) && totalTime == old(totalTime)
      ensures pageStart == old(pageStart) && pageEnd == old(pageEnd) && activeTime == old(activeTime)
    {
      if activeTime.Some? {
        var idx := activeTime.value;
        if idx < taskOffset {
          lines := lines[idx := lines[idx].(duration := lines[idx].duration + 1)];
        } else {
          assert false;
        }
      }
    }
  }
}
