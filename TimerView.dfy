/** The timer column of the outline view (`src/task_timer/timer_view.rs`): a
    table of task timers keyed by screen line, node path and task number, of
    which at most one runs after the user starts one. */
module TimerColumn {
  import opened Wrappers
  import opened DocTree

  datatype TimeData = TimeData(lineNum: nat, nodePath: NodePath, taskNum: nat, active: bool)

  /** The first timer on the line. */
  function LinePosition(data: seq<TimeData>, line: nat): (r: Option<nat>)
    ensures r.Some? ==> r.value < |data| && data[r.value].lineNum == line &&
                        forall j :: 0 <= j < r.value ==> data[j].lineNum != line
    ensures r.None? <==> forall j :: 0 <= j < |data| ==> data[j].lineNum != line
  {
    if |data| == 0 then None
    else if data[0].lineNum == line then Some(0)
    else match LinePosition(data[1..], line)
      case Some(k) => Some(k + 1)
      case None => None
  }

  /** The table after starting or stopping timer `idx`: every other timer is
      stopped and `idx` is flipped. */
  function Activated(data: seq<TimeData>, idx: nat): (r: seq<TimeData>)
    requires idx < |data|
    ensures |r| == |data|
    ensures r[idx] == data[idx].(active := !data[idx].active)
    ensures forall j :: 0 <= j < |data| && j != idx ==> r[j] == data[j].(active := false)
  {
    seq(|data|, j requires 0 <= j < |data| =>
      if j == idx then data[j].(active := !data[j].active) else data[j].(active := false))
  }

  /** At most one timer runs. */
  predicate AtMostOneActive(data: seq<TimeData>)
  {
    forall i, j :: 0 <= i < |data| && 0 <= j < |data| && data[i].active && data[j].active ==> i == j
  }

  /** The positions of the running timers: strictly increasing, each one
      running, and every running position among them. */
  function ActiveIndices(data: seq<TimeData>): (r: seq<nat>)
    ensures forall k :: 0 <= k < |r| ==> r[k] < |data| && data[r[k]].active
    ensures forall k, l :: 0 <= k < l < |r| ==> r[k] < r[l]
    ensures forall j :: 0 <= j < |data| && data[j].active ==> j in r
  {
    if |data| == 0 then []
    else ActiveIndices(data[..|data| - 1]) + (if data[|data| - 1].active then [|data| - 1] else [])
  }

  /** `active_times`: the running timers, in table order — entry k is the
      timer at the k-th running position. */
  function ActiveTimes(data: seq<TimeData>): (r: seq<TimeData>)
    ensures |r| == |ActiveIndices(data)| <= |data|
    ensures forall k :: 0 <= k < |r| ==> r[k] == data[ActiveIndices(data)[k]]
  {
    if |data| == 0 then []
    else
      var prefix := data[..|data| - 1];
      var last := data[|data| - 1];
      assert forall j :: 0 <= j < |prefix| ==> prefix[j] == data[j];
      ActiveTimes(prefix) + (if last.active then [last] else [])
  }

  /** A timer is listed as active exactly when it is in the table and runs. */
  lemma {:induction false} ActiveTimesExactly(data: seq<TimeData>)
    ensures forall e :: e in ActiveTimes(data) <==> e in data && e.active
  {
    var r, idx := ActiveTimes(data), ActiveIndices(data);
    forall e | e in r ensures e in data && e.active {
      var k :| 0 <= k < |r| && r[k] == e;
      assert e == data[idx[k]];
    }
    forall e | e in data && e.active ensures e in r {
      var j :| 0 <= j < |data| && data[j] == e;
      var k :| 0 <= k < |idx| && idx[k] == j;
      assert r[k] == e;
    }
  }

  /** After an activation at most one timer runs, and so at most one timer is
      listed as active. */
  lemma ActivationLeavesOneTimer(data: seq<TimeData>, idx: nat)
    requires idx < |data|
    ensures AtMostOneActive(Activated(data, idx))
    ensures |ActiveTimes(Activated(data, idx))| <= 1
  {
    AtMostOneActiveListsOne(Activated(data, idx));
  }

  lemma {:induction false} AtMostOneActiveListsOne(data: seq<TimeData>)
    requires AtMostOneActive(data)
    ensures |ActiveTimes(data)| <= 1
    ensures |ActiveTimes(data)| == 1 ==> exists j :: 0 <= j < |data| && data[j].active
  {
    if |data| > 0 {
      var prefix := data[..|data| - 1];
      assert forall j :: 0 <= j < |prefix| ==> prefix[j] == data[j];
      AtMostOneActiveListsOne(prefix);
      if data[|data| - 1].active {
        assert forall j :: 0 <= j < |prefix| ==> !prefix[j].active;
      }
    }
  }

  /** What `update_time_data` does with an entry: add it unless an equal one,
      running flag included, is already there.  Setting the running flag of
      that equal entry to the value it already has changes nothing. */
  function Recorded(data: seq<TimeData>, e: TimeData): (r: seq<TimeData>)
    ensures e in r && data <= r
    ensures |r| == if e in data then |data| else |data| + 1
  {
    if e in data then data else data + [e]
  }

  /** Recording a stopped timer where a running one with the same line, path
      and task number exists adds a second, stopped entry for that task. */
  lemma RecordBesideRunningTimer(data: seq<TimeData>, idx: nat)
    requires idx < |data| && data[idx].active && data[idx].(active := false) !in data
    ensures |Recorded(data, data[idx].(active := false))| == |data| + 1
    ensures Recorded(data, data[idx].(active := false))[|data|].lineNum == data[idx].lineNum
    ensures LinePosition(Recorded(data, data[idx].(active := false)), data[idx].lineNum).value <= idx
  {
    var r := Recorded(data, data[idx].(active := false));
    assert r[idx] == data[idx];
  }

  /** The rows `draw_timers` records for one drawn node: a stopped timer per
      task, on consecutive lines from `top`. */
  function RecordRows(data: seq<TimeData>, top: nat, path: NodePath, n: nat): (r: seq<TimeData>)
    ensures data <= r
  {
    if n == 0 then data
    else
      var before := RecordRows(data, top, path, n - 1);
      Recorded(before, Row(top, path, n - 1))
  }

  /** The stopped timer of task `i` of a node drawn from line `top`. */
  function Row(top: nat, path: NodePath, i: nat): TimeData
  {
    TimeData(top + i, path, i, false)
  }

  /** After drawing, every task of the node has its timer in the table, and
      the table grew by at most one entry per task. */
  lemma {:induction false} RecordRowsHasRows(data: seq<TimeData>, top: nat, path: NodePath, n: nat)
    ensures forall i :: 0 <= i < n ==> Row(top, path, i) in RecordRows(data, top, path, n)
    ensures |RecordRows(data, top, path, n)| <= |data| + n
  {
    if n > 0 {
      RecordRowsHasRows(data, top, path, n - 1);
      var before := RecordRows(data, top, path, n - 1);
      var r := RecordRows(data, top, path, n);
      forall i | 0 <= i < n
        ensures Row(top, path, i) in r
      {
        if i < n - 1 {
          var k :| 0 <= k < |before| && before[k] == Row(top, path, i);
          assert r[k] == before[k];
        }
      }
    }
  }

  class TimerView {
    var selectedLine: nat
    var rootNode: Node
    var drawnNodes: seq<NodePath>
    var completedTasks: seq<nat>
    var timeData: seq<TimeData>

    /** `TimerView::new`. */
    constructor ()
      ensures selectedLine == 1 && rootNode == EmptyRoot()
      ensures drawnNodes == [] && completedTasks == [] && timeData == []
    {
      selectedLine := 1;
      rootNode := EmptyRoot();
      drawnNodes := [];
      completedTasks := [];
      timeData := [];
    }

    /** `try_activate`: starts or stops the first timer on the selected line
        and stops every other; nothing happens on a line without a timer or
        on a completed task's line. */
    method TryActivate()
      modifies this
      ensures LinePosition(old(timeData), selectedLine).None? ==> timeData == old(timeData)
      ensures selectedLine in completedTasks ==> timeData == old(timeData)
      ensures LinePosition(old(timeData), selectedLine).Some? && selectedLine !in completedTasks ==>
        timeData == Activated(old(timeData), LinePosition(old(timeData), selectedLine).value)
      ensures selectedLine == old(selectedLine) && rootNode == old(rootNode)
      ensures drawnNodes == old(drawnNodes) && completedTasks == old(completedTasks)
    {
      var pos := LinePosition(timeData, selectedLine);
      if pos.Some? {
        if selectedLine in completedTasks {
          return;
        }
        var idx := pos.value;
        var data := timeData;
        var i := 0;
        while i < |data|
          invariant 0 <= i <= |data| == |timeData|
          invariant forall k :: 0 <= k < i ==> data[k] == if k == idx then timeData[k] else timeData[k].(active := false)
          invariant forall k :: i <= k < |data| ==> data[k] == timeData[k]
        {
          if i != idx {
            data := data[i := data[i].(active := false)];
          }
          i := i + 1;
        }
        data := data[idx := data[idx].(active := !data[idx].active)];
        timeData := data;
      }
    }

    /** `update_time_data`. */
    method UpdateTimeData(lineNum: nat, nodePath: NodePath, taskNum: nat, active: bool)
      modifies this
      ensures timeData == Recorded(old(timeData), TimeData(lineNum, nodePath, taskNum, active))
      ensures selectedLine == old(selectedLine) && rootNode == old(rootNode)
      ensures drawnNodes == old(drawnNodes) && completedTasks == old(completedTasks)
    {
      var entry := TimeData(lineNum, nodePath, taskNum, active);
      if entry !in timeData {
        timeData := timeData + [entry];
      } else {
        var idx := FirstEqual(timeData, entry);
        timeData := timeData[idx := timeData[idx].(active := active)];
        assert timeData == old(timeData);
      }
    }

    /** The arithmetic of `draw_timers`: the heading's total is the sum of the
        node's task times, drawn or not; a drawn node records a stopped timer
        per task on consecutive lines from `top` and takes one line per task
        plus its heading, a hidden one only its heading.  A node with more
        times than tasks, or fewer, is a panic. */
    method DrawTimers(node: Node, nodePath: NodePath, top: nat, drawContent: bool)
      returns (totalSeconds: nat, nodeHeight: nat)
      requires |node.content| == |node.contentTimes|
      modifies this
      ensures totalSeconds == Sum(node.contentTimes)
      ensures nodeHeight == if drawContent then |node.contentTimes| + 1 else 1
      ensures drawContent ==> timeData == RecordRows(old(timeData), top, nodePath, |node.contentTimes|)
      ensures !drawContent ==> timeData == old(timeData)
      ensures selectedLine == old(selectedLine) && rootNode == old(rootNode)
      ensures drawnNodes == old(drawnNodes) && completedTasks == old(completedTasks)
    {
      totalSeconds := 0;
      var y := top;
      var idx := 0;
      while idx < |node.contentTimes|
        invariant 0 <= idx <= |node.contentTimes|
        invariant totalSeconds == Sum(node.contentTimes[..idx])
        invariant y == if drawContent then top + idx else top
        invariant drawContent ==> timeData == RecordRows(old(timeData), top, nodePath, idx)
        invariant !drawContent ==> timeData == old(timeData)
        invariant selectedLine == old(selectedLine) && rootNode == old(rootNode)
        invariant drawnNodes == old(drawnNodes) && completedTasks == old(completedTasks)
      {
        if drawContent {
          UpdateTimeData(y, nodePath, idx, false);
          y := y + 1;
        }
        assert node.contentTimes[..idx + 1][..idx] == node.contentTimes[..idx];
        totalSeconds := totalSeconds + node.contentTimes[idx];
        idx := idx + 1;
      }
      assert node.contentTimes[..idx] == node.contentTimes;
      nodeHeight := y - top + 1;
    }
  }

  /** `position(|e| *e == entry)` where the entry is known to be there. */
  method FirstEqual(data: seq<TimeData>, e: TimeData) returns (idx: nat)
    requires e in data
    ensures idx < |data| && data[idx] == e
    ensures forall j :: 0 <= j < idx ==> data[j] != e
  {
    idx := 0;
    while data[idx] != e
      invariant idx < |data| && e in data[idx..]
      invariant forall j :: 0 <= j < idx ==> data[j] != e
      decreases |data| - idx
    {
      idx := idx + 1;
    }
  }
}
