/** The timer column of the home view (`src/task_timer/views/home/timers.rs`):
    a (completed, seconds) pair per task of the displayed node, then one
    rolled-up pair per child, and the single running timer over those rows. */
module HomeTimers {
  import opened Wrappers
  import opened DocTree
  import LT = LogTypes
  import DurationFormat
  import Pagination
  import opened Numbers

  /** `completed_tasks.zip(content_times)`: one pair per index both lists
      have. */
  function TaskEntries(n: Node): (r: seq<Entry>)
    ensures |r| == Min(|n.completedTasks|, |n.contentTimes|)
    ensures forall i :: 0 <= i < |r| ==> r[i] == Entry(n.completedTasks[i], n.contentTimes[i])
  {
    seq(Min(|n.completedTasks|, |n.contentTimes|),
        i requires 0 <= i < Min(|n.completedTasks|, |n.contentTimes|) => Entry(n.completedTasks[i], n.contentTimes[i]))
  }

  /** The rolled-up pair of each child, in child order. */
  function ChildEntries(n: Node): (r: seq<Entry>)
    ensures |r| == |n.children|
    ensures forall i :: 0 <= i < |r| ==> r[i] == Rollup(n.children[i])
  {
    seq(|n.children|, i requires 0 <= i < |n.children| => Rollup(n.children[i]))
  }

  /** `extract_entry`: own task times and then each child's rolled-up pair. */
  method ExtractEntry(node: Node) returns (entry: Entry)
    ensures entry == Rollup(node)
    decreases node
  {
    var completedNode := AllTrue(node.completedTasks);
    var completedSubheadings := true;
    var entryTime := Sum(node.contentTimes);
    var i := 0;
    while i < |node.children|
      invariant 0 <= i <= |node.children|
      invariant entryTime == Sum(node.contentTimes) + ChildrenDuration(node, i)
      invariant completedSubheadings == ChildrenCompleted(node, i)
    {
      var e := ExtractEntry(node.children[i]);
      entryTime := entryTime + e.duration;
      completedSubheadings := completedSubheadings && e.completed;
      i := i + 1;
    }
    entry := Entry(completedNode && completedSubheadings, entryTime);
  }

  /** `subheading_times`: one rolled-up pair per child. */
  method SubheadingTimes(node: Node) returns (times: seq<Entry>)
    ensures times == ChildEntries(node)
  {
    times := [];
    var i := 0;
    while i < |node.children|
      invariant 0 <= i <= |node.children|
      invariant times == ChildEntries(node)[..i]
    {
      var e := ExtractEntry(node.children[i]);
      times := times + [e];
      i := i + 1;
    }
  }

  /** A child's pair is the total of every task time below it, and it is
      done exactly when every task below it is. */
  lemma ChildEntryMatchesSubtree(n: Node, i: nat)
    requires i < |n.children|
    ensures ChildEntries(n)[i].duration == Sum(SubtreeTimes(n.children[i]))
    ensures ChildEntries(n)[i].completed <==> AllTrue(SubtreeFlags(n.children[i]))
  {
    RollupMatchesSubtree(n.children[i]);
  }

  /** The list with one more second on row `a`. */
  function Tick(lines: seq<Entry>, a: nat): (r: seq<Entry>)
    requires a < |lines|
    ensures |r| == |lines| && r[a] == Entry(lines[a].completed, lines[a].duration + 1)
    ensures forall i :: 0 <= i < |lines| && i != a ==> r[i] == lines[i]
  {
    lines[a := lines[a].(duration := lines[a].duration + 1)]
  }

  function Seconds(lines: seq<Entry>): (r: seq<nat>)
    ensures |r| == |lines| && forall i :: 0 <= i < |lines| ==> r[i] == lines[i].duration
  {
    seq(|lines|, i requires 0 <= i < |lines| => lines[i].duration)
  }

  /** A tick adds exactly one second to the column's total. */
  lemma TickAddsOneSecond(lines: seq<Entry>, a: nat)
    requires a < |lines|
    ensures Sum(Seconds(Tick(lines, a))) == Sum(Seconds(lines)) + 1
  {
    assert Seconds(Tick(lines, a)) == Seconds(lines)[a := lines[a].duration + 1];
    SumUpdate(Seconds(lines), a, lines[a].duration + 1);
  }

  class Timers {
    var totalTime: nat
    var lines: seq<Entry>
    var taskOffset: nat
    var selectedLine: nat
    var contentHeight: nat
    var activeTime: Option<nat>
    var pageStart: nat
    var pageEnd: nat

    /** The task pairs precede the children's, and a running timer is always
        on a task row. */
    predicate Valid()
      reads this
    {
      taskOffset <= |lines| && (activeTime.Some? ==> activeTime.value < taskOffset)
    }

    /** `Timers::new`.  The two lengths are each cast to `u16` before they
        are added. */
    constructor (node: Node)
      ensures lines == TaskEntries(node) + ChildEntries(node)
      ensures taskOffset == Min(|node.completedTasks|, |node.contentTimes|)
      ensures contentHeight == Pagination.AsU16(Pagination.AsU16(taskOffset) + Pagination.AsU16(|node.children|))
      ensures totalTime == node.totalTime && selectedLine == 1 && activeTime == None
      ensures pageStart == 0 && pageEnd == 0
      ensures Valid()
    {
      var tasks := TaskEntries(node);
      var subheadings := SubheadingTimes(node);
      totalTime := node.totalTime;
      lines := tasks + subheadings;
      taskOffset := |tasks|;
      selectedLine := 1;
      contentHeight := Pagination.AsU16(Pagination.AsU16(|tasks|) + Pagination.AsU16(|subheadings|));
      activeTime := None;
      pageStart := 0;
      pageEnd := 0;
    }

    /** `update_time`: one second more on the row the timer runs on, if any.
        The branch for a timer beyond the task rows cannot be taken while the
        timer only ever starts on task rows. */
    method UpdateTime()
      requires Valid()
      modifies this
      ensures Valid()
      ensures old(activeTime).Some? ==> lines == Tick(old(lines), old(activeTime).value)
      ensures old(activeTime).None? ==> lines == old(lines)
      ensures taskOffset == old(taskOffset) && selectedLine == old(selectedLine) && activeTime == old(activeTime)
      ensures contentHeight == old(contentHeight) && totalTime == old(totalTime)
      ensures pageStart == old(pageStart) && pageEnd == old(pageEnd)
    {
      if activeTime.Some? {
        var idx := activeTime.value;
        if idx < taskOffset {
          lines := lines[idx := lines[idx].(duration := lines[idx].duration + 1)];
        } else {
          assert false;
        }
      }
    }

    /** `try_activate`: a running timer is stopped whatever the selection;
        otherwise the timer starts on the selected row if it is a task row
        that is not done, its index stored as a `u16`.  The selected line
        number is reported as text. */
    method TryActivate() returns (r: Result<(LT.InfoSubType, string), string>)
      requires Valid()
      requires activeTime.None? ==> pageStart + selectedLine >= 1
      modifies this
      ensures Valid()
      ensures lines == old(lines) && taskOffset == old(taskOffset) && selectedLine == old(selectedLine)
      ensures contentHeight == old(contentHeight) && totalTime == old(totalTime)
      ensures pageStart == old(pageStart) && pageEnd == old(pageEnd)
      ensures old(activeTime).Some? ==>
        r == Ok((LT.StopTimer, DurationFormat.Digits(selectedLine))) && activeTime == None
      ensures old(activeTime).None? ==>
        var pos := pageStart + selectedLine - 1;
        if pos >= taskOffset then
          r == Err("Cannot start a subheading time") && activeTime == None
        else if lines[pos].completed then
          r == Err("Cannot start a time on a completed task") && activeTime == None
        else
          r == Ok((LT.StartTimer, DurationFormat.Digits(selectedLine))) && activeTime == Some(Pagination.AsU16(pos))
      ensures old(activeTime).None? && r.Ok? && pageStart < 65536 && pageStart + selectedLine <= 65536 ==> ActiveOnLine()
    {
      var infoType: LT.InfoSubType;
      if activeTime.Some? {
        infoType := LT.StopTimer;
        activeTime := None;
      } else {
        infoType := LT.StartTimer;
        var timerPos := pageStart + selectedLine - 1;
        if timerPos >= taskOffset {
          return Err("Cannot start a subheading time");
        }
        if !lines[timerPos].completed {
          activeTime := Some(Pagination.AsU16(timerPos));
        } else {
          return Err("Cannot start a time on a completed task");
        }
      }
      return Ok((infoType, DurationFormat.Digits(selectedLine)));
    }

    /** `active_on_line`: the timer runs on the selected row, the page start
        being cast to `u16` first. */
    predicate ActiveOnLine()
      reads this
      requires Pagination.AsU16(pageStart) + selectedLine >= 1
      ensures pageStart < 65536 ==>
        (ActiveOnLine() <==> activeTime.Some? && selectedLine == activeTime.value - pageStart + 1)
    {
      activeTime.Some? && activeTime.value == Pagination.AsU16(pageStart) + selectedLine - 1
    }

    /** `task_slice`. */
    function TaskSlice(): (r: seq<Entry>)
      reads this
      requires taskOffset <= |lines|
      ensures |r| == taskOffset && r <= lines
    {
      lines[..taskOffset]
    }

    /** `subheading_slice`. */
    function SubheadingSlice(): (r: seq<Entry>)
      reads this
      requires taskOffset <= |lines|
      ensures |r| == |lines| - taskOffset
      ensures forall i :: 0 <= i < |r| ==> r[i] == lines[taskOffset + i]
    {
      lines[taskOffset..]
    }

    /** `slice_bounds`. */
    method SliceBounds(startIdx: nat, endIdx: nat)
      modifies this
      ensures pageStart == startIdx && pageEnd == endIdx
      ensures lines == old(lines) && taskOffset == old(taskOffset) && selectedLine == old(selectedLine)
      ensures contentHeight == old(contentHeight) && totalTime == old(totalTime) && activeTime == old(activeTime)
    {
      pageStart := startIdx;
      pageEnd := endIdx;
    }
  }

  /** Right after `new`, the task slice is the zipped task pairs and the
      subheading slice is the children's rolled-up pairs. */
  lemma NewSlices(t: Timers, node: Node)
    requires t.lines == TaskEntries(node) + ChildEntries(node)
    requires t.taskOffset == Min(|node.completedTasks|, |node.contentTimes|)
    ensures t.TaskSlice() == TaskEntries(node)
    ensures t.SubheadingSlice() == ChildEntries(node)
  {
    assert t.lines[..t.taskOffset] == TaskEntries(node);
    assert t.lines[t.taskOffset..] == ChildEntries(node);
  }
}
